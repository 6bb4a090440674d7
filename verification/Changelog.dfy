/** The changelog walk (`generate_and_store_bill_changelog`) and its on-demand caller: which version
    transitions there are, why none of their writes names an unknown version, and how the caller's
    pending placeholder ends. */
module Changelog {
  import opened Wrappers

  type Text = string

  /** A version's natural key in the broker. */
  datatype VersionKey = VersionKey(date: string, note: string)

  /** A version as api-v3 archived it: the text of its chosen link with that link's media type, and its
      diff, which may be the empty text. */
  datatype Version = Version(key: VersionKey, text: Option<Text>, media: Option<string>, diff: Option<Text>)

  // ---------------------------------------------------------------------------------------------
  // Transitions
  // ---------------------------------------------------------------------------------------------

  /** A version and the earlier one its diff was taken against, by their places in the list. */
  datatype Transition = Transition(older: nat, newer: nat)

  predicate InLineage(v: Version) {
    v.diff.Some? && v.text.Some?
  }

  function NearestInLineage(versions: seq<Version>, i: nat): Option<nat>
    requires i <= |versions|
  {
    if i == 0 then None else if InLineage(versions[i - 1]) then Some(i - 1) else NearestInLineage(versions, i - 1)
  }

  function FirstWithText(versions: seq<Version>, j: nat, i: nat): Option<nat>
    requires j <= i <= |versions|
    decreases i - j
  {
    if j == i then None else if versions[j].text.Some? then Some(j) else FirstWithText(versions, j + 1, i)
  }

  /** `_diff_baseline_index`. */
  function BaselineIndex(versions: seq<Version>, i: nat): Option<nat>
    requires i <= |versions|
  {
    var nearest := NearestInLineage(versions, i);
    if nearest.Some? then nearest else FirstWithText(versions, 0, i)
  }

  predicate SameMedia(older: Version, newer: Version) {
    var known := older.media.GetOr("") != "" && newer.text.Some? && newer.media.GetOr("") != "";
    known ==> older.media == newer.media
  }

  /** The transition a version is the target of, if it is one. */
  function TransitionTo(versions: seq<Version>, i: nat): Option<Transition>
    requires i < |versions|
  {
    var baseline := BaselineIndex(versions, i);
    if versions[i].diff.GetOr("") == "" || baseline.None? || baseline.value >= |versions| || !SameMedia(versions[baseline.value], versions[i])
    then None
    else Some(Transition(baseline.value, i))
  }

  /** Oldest first, each from a version to a later one. */
  predicate Forward(versions: seq<Version>, transitions: seq<Transition>) {
    && (forall t <- transitions :: t.older < t.newer < |versions|)
    && (forall j, k :: 0 <= j < k < |transitions| ==> transitions[j].newer < transitions[k].newer)
  }

  /** The baseline of a diff is an earlier version with text: the latest one in the diff lineage, and only
      when there is none, the earliest one at all. */
  lemma BaselineIsEarlier(versions: seq<Version>, i: nat)
    requires i <= |versions|
    ensures BaselineIndex(versions, i).None? <==> forall j | 0 <= j < i :: versions[j].text.None?
    ensures BaselineIndex(versions, i).Some? ==>
              var b := BaselineIndex(versions, i).value;
              && b < i && versions[b].text.Some?
              && (InLineage(versions[b]) ==> forall j | b < j < i :: !InLineage(versions[j]))
              && (!InLineage(versions[b]) ==> forall j | 0 <= j < i :: !InLineage(versions[j]) && (versions[j].text.Some? ==> b <= j))
  {
    NearestIsNearest(versions, i);
    FirstIsFirst(versions, 0, i);
  }

  lemma {:induction false} NearestIsNearest(versions: seq<Version>, i: nat)
    requires i <= |versions|
    ensures match NearestInLineage(versions, i)
            case Some(b) => b < i && InLineage(versions[b]) && forall j | b < j < i :: !InLineage(versions[j])
            case None => forall j | 0 <= j < i :: !InLineage(versions[j])
  {
    if i > 0 && !InLineage(versions[i - 1]) {
      NearestIsNearest(versions, i - 1);
    }
  }

  lemma {:induction false} FirstIsFirst(versions: seq<Version>, j: nat, i: nat)
    requires j <= i <= |versions|
    ensures match FirstWithText(versions, j, i)
            case Some(b) => j <= b < i && versions[b].text.Some? && forall k | j <= k < b :: versions[k].text.None?
            case None => forall k | j <= k < i :: versions[k].text.None?
    decreases i - j
  {
    if j < i && versions[j].text.None? {
      FirstIsFirst(versions, j + 1, i);
    }
  }

  /** What a diff was taken against: the latest earlier version that has both a diff and a text, or, when
      there is none, the earliest one with a text. */
  ghost predicate IsBaseline(versions: seq<Version>, b: nat, i: nat)
    requires i < |versions|
  {
    && b < i && versions[b].text.Some?
    && if exists j | 0 <= j < i :: versions[j].diff.Some? && versions[j].text.Some?
       then versions[b].diff.Some? && forall j | b < j < i :: versions[j].diff.None? || versions[j].text.None?
       else forall j | 0 <= j < b :: versions[j].text.None?
  }

  /** A version a changelog can be made for: its diff is not empty, and what it was taken against is there
      and is not known to be a document of another kind. */
  ghost predicate HasTransition(versions: seq<Version>, i: nat)
    requires i < |versions|
  {
    && versions[i].diff.Some? && versions[i].diff.value != ""
    && exists b: nat :: IsBaseline(versions, b, i) && !OtherKind(versions[b].media, if versions[i].text.Some? then versions[i].media else None)
  }

  predicate OtherKind(a: Option<string>, b: Option<string>) {
    a.Some? && a.value != "" && b.Some? && b.value != "" && a.value != b.value
  }

  lemma TransitionExactly(versions: seq<Version>, i: nat)
    requires i < |versions|
    ensures TransitionTo(versions, i).Some? <==> HasTransition(versions, i)
    ensures TransitionTo(versions, i).Some? ==>
              TransitionTo(versions, i).value.newer == i && IsBaseline(versions, TransitionTo(versions, i).value.older, i)
  {
    BaselineIsEarlier(versions, i);
    NearestIsNearest(versions, i);
    var baseline := BaselineIndex(versions, i);
    if baseline.Some? {
      if exists j | 0 <= j < i :: versions[j].diff.Some? && versions[j].text.Some? {
        var j :| 0 <= j < i && versions[j].diff.Some? && versions[j].text.Some?;
        assert InLineage(versions[j]);
      }
      assert IsBaseline(versions, baseline.value, i);
    }
    forall b: nat | IsBaseline(versions, b, i)
      ensures baseline == Some(b)
    {
      OneBaseline(versions, b, i);
    }
  }

  lemma OneBaseline(versions: seq<Version>, b: nat, i: nat)
    requires i < |versions| && IsBaseline(versions, b, i)
    ensures BaselineIndex(versions, i) == Some(b)
  {
    BaselineIsEarlier(versions, i);
    NearestIsNearest(versions, i);
    FirstIsFirst(versions, 0, i);
    if InLineage(versions[b]) {
      assert exists j | 0 <= j < i :: versions[j].diff.Some? && versions[j].text.Some?;
    }
  }

  /** The transitions to the first `n` versions, oldest first. */
  function TransitionsUpTo(versions: seq<Version>, n: nat): seq<Transition>
    requires n <= |versions|
  {
    if n == 0 then []
    else
      var last := TransitionTo(versions, n - 1);
      TransitionsUpTo(versions, n - 1) + if last.Some? then [last.value] else []
  }

  function TransitionsOf(versions: seq<Version>): seq<Transition> {
    TransitionsUpTo(versions, |versions|)
  }

  lemma OneMoreForward(versions: seq<Version>, transitions: seq<Transition>, t: Transition)
    requires Forward(versions, transitions) && t.older < t.newer < |versions|
    requires forall u <- transitions :: u.newer < t.newer
    ensures Forward(versions, transitions + [t])
    ensures forall u <- transitions + [t] :: u in transitions || u == t
  {
  }

  predicate TargetsBelow(versions: seq<Version>, transitions: seq<Transition>, n: nat)
    requires n <= |versions|
  {
    forall t <- transitions :: t.newer < n && TransitionTo(versions, t.newer) == Some(t)
  }

  lemma {:induction false} TransitionsHaveTargets(versions: seq<Version>, n: nat)
    requires n <= |versions|
    ensures TargetsBelow(versions, TransitionsUpTo(versions, n), n)
  {
    if n > 0 {
      TransitionsHaveTargets(versions, n - 1);
    }
  }

  lemma {:induction false} TransitionsRunForward(versions: seq<Version>, n: nat)
    requires n <= |versions|
    ensures Forward(versions, TransitionsUpTo(versions, n)) && TargetsBelow(versions, TransitionsUpTo(versions, n), n)
  {
    TransitionsHaveTargets(versions, n);
    if n > 0 {
      var before, last := TransitionsUpTo(versions, n - 1), TransitionTo(versions, n - 1);
      TransitionsRunForward(versions, n - 1);
      if last.Some? {
        BaselineIsEarlier(versions, n - 1);
        OneMoreForward(versions, before, last.value);
      } else {
        assert TransitionsUpTo(versions, n) == before;
      }
    }
  }

  lemma {:induction false} NoTransitionIsMissing(versions: seq<Version>, n: nat, i: nat)
    requires i < n <= |versions| && TransitionTo(versions, i).Some?
    ensures TransitionTo(versions, i).value in TransitionsUpTo(versions, n)
  {
    if i < n - 1 {
      NoTransitionIsMissing(versions, n - 1, i);
    }
  }

  /** These transitions are, oldest first, to every version that has one and whose note is not covered,
      each from what its diff was taken against. */
  ghost predicate AllHops(versions: seq<Version>, transitions: seq<Transition>, covered: set<string>) {
    && Forward(versions, transitions)
    && (forall t <- transitions :: IsBaseline(versions, t.older, t.newer))
    && (forall t <- transitions :: HasTransition(versions, t.newer) && versions[t.newer].key.note !in covered)
    && (forall i | 0 <= i < |versions| :: HasTransition(versions, i) && versions[i].key.note !in covered ==>
          exists t <- transitions :: t.newer == i)
  }

  lemma TransitionsAreHops(versions: seq<Version>)
    ensures AllHops(versions, TransitionsOf(versions), {})
  {
    var all := TransitionsOf(versions);
    TransitionsRunForward(versions, |versions|);
    forall t <- all
      ensures HasTransition(versions, t.newer) && IsBaseline(versions, t.older, t.newer)
    {
      TransitionExactly(versions, t.newer);
    }
    forall i | 0 <= i < |versions| && HasTransition(versions, i)
      ensures exists t <- all :: t.newer == i
    {
      TransitionExactly(versions, i);
      NoTransitionIsMissing(versions, |versions|, i);
    }
  }

  /** `get_archived_version_transitions`, for a bill api-v3 returned. */
  method ArchivedTransitions(versions: seq<Version>) returns (transitions: seq<Transition>)
    ensures transitions == TransitionsOf(versions)
    ensures AllHops(versions, transitions, {})
  {
    TransitionsAreHops(versions);
    transitions := [];
    if versions == [] {
      return;
    }
    BaselineIsEarlier(versions, 0);
    for i := 1 to |versions|
      invariant transitions == TransitionsUpTo(versions, i)
    {
      var t := TransitionTo(versions, i);
      if t.Some? {
        transitions := transitions + [t.value];
      }
    }
  }

  /** The versions that are the target of a transition. */
  ghost function Hops(versions: seq<Version>): set<nat> {
    set i: nat | i < |versions| && HasTransition(versions, i)
  }

  lemma {:induction false} CountTargets(versions: seq<Version>, n: nat, targets: set<nat>)
    requires n <= |versions| && forall i: nat :: i in targets <==> i < n && TransitionTo(versions, i).Some?
    ensures |TransitionsUpTo(versions, n)| == |targets|
  {
    if n == 0 {
      assert targets == {};
    } else if TransitionTo(versions, n - 1).Some? {
      CountTargets(versions, n - 1, targets - {n - 1});
    } else {
      CountTargets(versions, n - 1, targets);
    }
  }

  /** How many transitions there are. */
  lemma CountTransitions(versions: seq<Version>)
    ensures |TransitionsOf(versions)| == |Hops(versions)|
  {
    forall i: nat
      ensures i in Hops(versions) <==> i < |versions| && TransitionTo(versions, i).Some?
    {
      if i < |versions| {
        TransitionExactly(versions, i);
      }
    }
    CountTargets(versions, |versions|, Hops(versions));
  }

  // ---------------------------------------------------------------------------------------------
  // The broker
  // ---------------------------------------------------------------------------------------------

  datatype Status = Pending | Complete | Failed

  /** The artifact row a write lands on: one named by its id, or the one of a version's natural key. */
  datatype Row = Placeholder | Natural(key: VersionKey)

  /** A write the broker accepted. */
  datatype Write = Write(row: Row, version: VersionKey, compare: Option<VersionKey>, status: Status)

  class Broker {
    /** It answers, and refuses nothing but a reference to an unknown version. */
    const reliable: bool
    var versions: set<VersionKey>
    var rows: map<Row, Status>
    ghost var log: seq<Write>

    ghost predicate Valid()
      reads this
    {
      rows == AfterWrites(log)
    }

    constructor (reliable: bool, versions: set<VersionKey>)
      ensures Valid() && this.reliable == reliable && this.versions == versions && rows == map[] && log == []
    {
      this.reliable, this.versions, rows, log := reliable, versions, map[], [];
    }

    /** `write_bill_version`. */
    method WriteVersion(key: VersionKey) returns (ok: bool)
      modifies this`versions
      ensures versions == if ok then old(versions) + {key} else old(versions)
      ensures reliable ==> ok
    {
      var failed: bool := *;
      ok := !failed || reliable;
      versions := if ok then versions + {key} else versions;
    }

    /** `write_bill_artifact`: creates the version it is for, refuses a comparison version it does not
        know; false stands for `BrokerClientError`. */
    method WriteArtifact(row: Row, version: VersionKey, compare: Option<VersionKey>, status: Status) returns (ok: bool)
      requires Valid()
      modifies this
      ensures Valid()
      ensures ok ==> compare.Some? ==> compare.value in old(versions)
      ensures versions == if ok then old(versions) + {version} else old(versions)
      ensures log == if ok then old(log) + [Write(row, version, compare, status)] else old(log)
      ensures reliable && !ok ==> compare.Some? && compare.value !in old(versions)
    {
      var failed: bool := *;
      ok := (!failed || reliable) && (compare.None? || compare.value in versions);
      if ok {
        versions, rows, log := versions + {version}, rows[row := status], log + [Write(row, version, compare, status)];
        AfterOneMore(old(log), Write(row, version, compare, status));
      }
    }
  }

  /** The rows after some writes: the last write to a row decides. */
  function AfterWrites(writes: seq<Write>): map<Row, Status> {
    if writes == [] then map[]
    else
      var last := writes[|writes| - 1];
      AfterWrites(writes[..|writes| - 1])[last.row := last.status]
  }

  lemma AfterOneMore(writes: seq<Write>, w: Write)
    ensures AfterWrites(writes + [w]) == AfterWrites(writes)[w.row := w.status]
  {
    assert (writes + [w])[..|writes|] == writes;
  }

  // ---------------------------------------------------------------------------------------------
  // The walk
  // ---------------------------------------------------------------------------------------------

  /** What a LegBot dispatch comes to: an answer that supports a changelog or not, an error of its own,
      or an HTTP error, which no handler of the caller names. */
  datatype Dispatched = Answer(sufficient: bool) | DispatchError | HttpError

  datatype Outcome =
    | NotApplicable
    | Done(status: Status, requestedWritten: bool)
    | Mismatch
    | LegBotError
    | BrokerError
    | Escaped

  /** The status that a write gives an answer. */
  predicate Told(answer: Dispatched, w: Write) {
    (answer == Answer(true) && w.status == Complete) || (answer == Answer(false) && w.status == Failed)
  }

  /** The writes are what the first dispatches answered. */
  predicate AnsweredAs(answers: nat -> Dispatched, writes: seq<Write>) {
    writes == [] || (Told(answers(|writes| - 1), writes[|writes| - 1]) && AnsweredAs(answers, writes[..|writes| - 1]))
  }

  lemma AnsweredOneMore(answers: nat -> Dispatched, writes: seq<Write>, w: Write)
    requires AnsweredAs(answers, writes) && Told(answers(|writes|), w)
    ensures AnsweredAs(answers, writes + [w])
  {
    assert (writes + [w])[..|writes|] == writes;
  }

  lemma {:induction false} AnsweredAt(answers: nat -> Dispatched, writes: seq<Write>, k: nat)
    requires AnsweredAs(answers, writes) && k < |writes|
    ensures Told(answers(k), writes[k])
  {
    if k < |writes| - 1 {
      AnsweredAt(answers, writes[..|writes| - 1], k);
    }
  }

  lemma AllTold(answers: nat -> Dispatched, writes: seq<Write>)
    requires AnsweredAs(answers, writes)
    ensures forall k: nat | k < |writes| :: Told(answers(k), writes[k])
  {
    forall k: nat | k < |writes|
      ensures Told(answers(k), writes[k])
    {
      AnsweredAt(answers, writes, k);
    }
  }

  /** All writes are complete exactly when every dispatch supported a changelog. */
  lemma AnsweredCompletely(answers: nat -> Dispatched, writes: seq<Write>)
    requires AnsweredAs(answers, writes)
    ensures AllComplete(writes) <==> forall k: nat | k < |writes| :: answers(k) == Answer(true)
  {
    AllTold(answers, writes);
    if forall k: nat | k < |writes| :: answers(k) == Answer(true) {
      forall k: nat | k < |writes|
        ensures writes[k].status == Complete
      {
        assert answers(k) == Answer(true);
      }
    } else {
      var k: nat :| k < |writes| && answers(k) != Answer(true);
      assert writes[k] in writes && writes[k].status != Complete;
    }
  }

  lemma {:induction false} AnsweredAll(answers: nat -> Dispatched, writes: seq<Write>)
    requires AnsweredAs(answers, writes)
    ensures AllAnswer(answers, |writes|)
  {
    if writes != [] {
      AnsweredAll(answers, writes[..|writes| - 1]);
    }
  }

  /** How a walk of `total` dispatches can end after `n` answered ones. */
  predicate EndsAt(answers: nat -> Dispatched, r: Outcome, n: nat, total: nat) {
    match r
    case Done(_, _) => n == total
    case LegBotError => n < total && answers(n).DispatchError?
    case Escaped => n < total && answers(n).HttpError?
    case BrokerError => n < total && answers(n).Answer?
    case _ => false
  }

  predicate AllAnswer(answers: nat -> Dispatched, n: nat) {
    forall k: nat | k < n :: answers(k).Answer?
  }

  /** The first dispatch that brings no answer ends in an HTTP error. */
  predicate HttpErrorFirst(answers: nat -> Dispatched, total: nat) {
    exists n: nat | n < total :: answers(n).HttpError? && AllAnswer(answers, n)
  }

  predicate LatestIs(versions: seq<Version>, requested: VersionKey) {
    versions != [] && versions[|versions| - 1].key == requested
  }

  /** How the placeholder ends, when the broker refuses nothing it should take. */
  function FinalStatus(versions: seq<Version>, requested: VersionKey, answers: nat -> Dispatched): Status {
    var total := |TransitionsOf(versions)|;
    if !LatestIs(versions, requested) then Failed
    else if HttpErrorFirst(answers, total) then Pending
    else if AllAnswer(answers, total) && total > 0 && TransitionTo(versions, |versions| - 1).Some?
    then if answers(total - 1) == Answer(true) then Complete else Failed
    else Failed
  }

  lemma FinalStatusExactly(versions: seq<Version>, requested: VersionKey, answers: nat -> Dispatched)
    ensures var final, total := FinalStatus(versions, requested, answers), |Hops(versions)|;
            && (final == Pending <==> LatestIs(versions, requested) && HttpErrorFirst(answers, total))
            && (final == Complete <==>
                  && LatestIs(versions, requested) && HasTransition(versions, |versions| - 1)
                  && AllAnswer(answers, total) && total > 0 && answers(total - 1) == Answer(true))
  {
    CountTransitions(versions);
    if LatestIs(versions, requested) {
      TransitionExactly(versions, |versions| - 1);
    }
    if AllAnswer(answers, |TransitionsOf(versions)|) {
      NoHttpErrorIfAllAnswer(answers, |TransitionsOf(versions)|);
    }
  }

  lemma NoHttpErrorIfAllAnswer(answers: nat -> Dispatched, total: nat)
    requires AllAnswer(answers, total)
    ensures !HttpErrorFirst(answers, total)
  {
  }

  predicate DistinctKeys(versions: seq<Version>) {
    forall j, k :: 0 <= j < k < |versions| ==> versions[j].key != versions[k].key
  }

  /** The rows the backfill leaves: every version but the latest, if it has a note. */
  function LedgerKeys(versions: seq<Version>, latest: VersionKey): set<VersionKey> {
    set v <- versions | v.key != latest && v.key.note != "" :: v.key
  }

  /** `_backfill_missing_versions`: best effort, one row for every older version. */
  method BackfillMissingVersions(broker: Broker, versions: seq<Version>, latest: VersionKey)
    modifies broker`versions
    ensures old(broker.versions) <= broker.versions
    ensures forall key <- broker.versions - old(broker.versions) :: key != latest && key.note != "" && exists v <- versions :: v.key == key
    ensures broker.reliable ==> forall v <- versions :: v.key == latest || v.key.note == "" || v.key in broker.versions
  {
    for i := 0 to |versions|
      invariant old(broker.versions) <= broker.versions <= old(broker.versions) + LedgerKeys(versions, latest)
      invariant broker.reliable ==> forall j | 0 <= j < i :: versions[j].key in LedgerKeys(versions, latest) ==> versions[j].key in broker.versions
    {
      if versions[i].key != latest && versions[i].key.note != "" {
        assert versions[i] in versions;
        var ok := broker.WriteVersion(versions[i].key);
      }
    }
    forall v | v in versions && v.key != latest && v.key.note != "" && broker.reliable
      ensures v.key in broker.versions
    {
      assert v.key in LedgerKeys(versions, latest);
    }
  }

  /** The row a transition's write lands on: the caller's placeholder for the version it asked for. */
  function RowFor(versions: seq<Version>, t: Transition, requested: VersionKey, hasPlaceholder: bool): Row
    requires t.newer < |versions|
  {
    if versions[t.newer].key == requested && hasPlaceholder then Placeholder else Natural(versions[t.newer].key)
  }

  /** What the first transitions of a walk wrote, one row each, all terminal. */
  predicate Wrote(versions: seq<Version>, transitions: seq<Transition>, requested: VersionKey, hasPlaceholder: bool, writes: seq<Write>) {
    && |writes| <= |transitions|
    && forall k | 0 <= k < |writes| ::
         && transitions[k].older < transitions[k].newer < |versions|
         && writes[k].version == versions[transitions[k].newer].key
         && writes[k].row == (if hasPlaceholder && writes[k].version == requested then Placeholder else Natural(writes[k].version))
         && writes[k].compare == Some(versions[transitions[k].older].key)
         && writes[k].status != Pending
  }

  function Targets(versions: seq<Version>, transitions: seq<Transition>): set<VersionKey>
    requires Forward(versions, transitions)
  {
    set t <- transitions :: versions[t.newer].key
  }

  class ChangelogWalk {
    const broker: Broker
    /** What the dispatches of a walk come to, the first one's at 0. */
    const answers: nat -> Dispatched

    constructor (broker: Broker, answers: nat -> Dispatched)
      ensures this.broker == broker && this.answers == answers
    {
      this.broker, this.answers := broker, answers;
    }

    /** `_dispatch_and_write_changelog`: a terminal row and its status, or what was raised. */
    method DispatchAndWrite(row: Row, version: VersionKey, compare: VersionKey, k: nat) returns (r: Outcome)
      requires broker.Valid()
      modifies broker
      ensures broker.Valid()
      ensures r.Done? || r.LegBotError? || r.BrokerError? || r.Escaped?
      ensures r.Done? ==> (answers(k) == Answer(true) && r.status == Complete) || (answers(k) == Answer(false) && r.status == Failed)
      ensures !r.Done? ==> EndsAt(answers, r, k, k + 1)
      ensures r.Done? ==> broker.log == old(broker.log) + [Write(row, version, Some(compare), r.status)]
                          && broker.versions == old(broker.versions) + {version} && compare in old(broker.versions)
      ensures !r.Done? ==> broker.log == old(broker.log) && broker.versions == old(broker.versions)
      ensures r.BrokerError? && broker.reliable ==> compare !in broker.versions
    {
      match answers(k)
      case DispatchError => r := LegBotError;
      case HttpError => r := Escaped;
      case Answer(sufficient) =>
        var status := if sufficient then Complete else Failed;
        var ok := broker.WriteArtifact(row, version, Some(compare), status);
        r := if ok then Done(status, false) else BrokerError;
    }

    /** The loop over the transitions. `writes` are the rows it wrote before it ended. */
    method Walk(versions: seq<Version>, transitions: seq<Transition>, requested: VersionKey, hasPlaceholder: bool)
      returns (r: Outcome, ghost writes: seq<Write>)
      requires transitions != [] && Forward(versions, transitions) && broker.Valid()
      modifies broker
      ensures broker.Valid() && broker.log == old(broker.log) + writes
      ensures AnsweredAs(answers, writes) && EndsAt(answers, r, |writes|, |transitions|)
      ensures Walked(versions, transitions, requested, hasPlaceholder, old(broker.versions), writes, broker.versions)
      // every transition's outcome counts, not the last one's
      ensures r.Done? ==> r.status != Pending && (r.status == Complete <==> AllComplete(writes))
      ensures r.Done? ==> (r.requestedWritten <==> exists t <- transitions :: versions[t.newer].key == requested)
      // what a broker that only refuses unknown versions can refuse
      ensures r.BrokerError? && broker.reliable ==> versions[transitions[|writes|].older].key !in broker.versions
    {
      writes := [];
      var firstFailure: Option<Status> := None;
      var requestedWritten := false;
      assert Targets(versions, transitions[..0]) == {};
      for k := 0 to |transitions|
        invariant broker.Valid() && broker.log == old(broker.log) + writes && |writes| == k
        invariant Walked(versions, transitions, requested, hasPlaceholder, old(broker.versions), writes, broker.versions)
        invariant Tallied(versions, transitions, requested, writes, firstFailure, requestedWritten)
        invariant AnsweredAs(answers, writes)
      {
        var last;
        ghost var sofar := writes;
        last, writes := WalkOne(versions, transitions, requested, hasPlaceholder, k, old(broker.versions), old(broker.log), writes);
        if !last.Done? {
          return last, writes;
        }
        TalliedOneMore(versions, transitions, requested, sofar, writes[k], firstFailure, requestedWritten);
        AnsweredOneMore(answers, sofar, writes[k]);
        requestedWritten := requestedWritten || versions[transitions[k].newer].key == requested;
        if firstFailure == None && last.status != Complete {
          firstFailure := Some(last.status);
        }
      }
      assert transitions[..|transitions|] == transitions;
      r := Done(firstFailure.GetOr(Complete), requestedWritten);
    }

    /** One transition. */
    method WalkOne(versions: seq<Version>, transitions: seq<Transition>, requested: VersionKey, hasPlaceholder: bool, k: nat,
                   ghost before: set<VersionKey>, ghost start: seq<Write>, ghost writes: seq<Write>)
      returns (last: Outcome, ghost writes': seq<Write>)
      requires k == |writes| < |transitions| && Forward(versions, transitions)
      requires broker.Valid() && broker.log == start + writes
      requires Walked(versions, transitions, requested, hasPlaceholder, before, writes, broker.versions)
      modifies broker
      ensures broker.Valid() && broker.log == start + writes'
      ensures Walked(versions, transitions, requested, hasPlaceholder, before, writes', broker.versions)
      ensures !last.Done? ==> EndsAt(answers, last, k, k + 1)
      ensures last.Done? ==> |writes'| == k + 1 && last.status == writes'[k].status && Told(answers(k), writes'[k]) && writes' == writes + [writes'[k]]
      ensures !last.Done? ==> writes' == writes
      ensures last.BrokerError? && broker.reliable ==> versions[transitions[k].older].key !in broker.versions
    {
      writes' := writes;
      var t := transitions[k];
      var row := RowFor(versions, t, requested, hasPlaceholder);
      last := DispatchAndWrite(row, versions[t.newer].key, versions[t.older].key, k);
      if last.Done? {
        WalkedOneMore(versions, transitions, requested, hasPlaceholder, before, writes, old(broker.versions), last.status);
        ghost var w := Write(row, versions[t.newer].key, Some(versions[t.older].key), last.status);
        writes' := writes + [w];
        assert start + writes + [w] == start + writes';
      }
    }

    // -------------------------------------------------------------------------------------------
    // The callers
    // -------------------------------------------------------------------------------------------

    /** The transitions whose target no changelog covers yet. */
    static method Uncovered(versions: seq<Version>, transitions: seq<Transition>, covered: set<string>) returns (r: seq<Transition>)
      requires Forward(versions, transitions)
      ensures Forward(versions, r)
      ensures forall t :: t in r <==> t in transitions && versions[t.newer].key.note !in covered
      ensures AllHops(versions, transitions, {}) ==> AllHops(versions, r, covered)
    {
      r := [];
      for k := 0 to |transitions|
        invariant Forward(versions, r) && forall t <- r :: forall j | k <= j < |transitions| :: t.newer < transitions[j].newer
        invariant forall t :: t in r <==> t in transitions[..k] && versions[t.newer].key.note !in covered
      {
        assert transitions[..k + 1] == transitions[..k] + [transitions[k]];
        if versions[transitions[k].newer].key.note !in covered {
          ghost var before := r;
          r := r + [transitions[k]];
          assert forall t :: t in r <==> t in before || t == transitions[k];
        }
      }
      assert transitions[..|transitions|] == transitions;
    }

    /** `generate_and_store_bill_changelog`, when api-v3 returned these versions. `coverage` are the notes
        the broker has a changelog for; it is None for a caller that does not ask. `hops` are all the
        transitions there are, and `walked` those left to make a changelog for. */
    method GenerateAndStore(versions: seq<Version>, requested: VersionKey, coverage: Option<set<string>>, hasPlaceholder: bool)
      returns (r: Outcome, ghost hops: seq<Transition>, ghost walked: seq<Transition>, ghost writes: seq<Write>)
      requires broker.Valid()
      modifies broker
      ensures broker.Valid() && broker.log == old(broker.log) + writes && old(broker.versions) <= broker.versions
      // which transitions there are, which are left, and what becomes of a bill without any
      ensures hops == TransitionsOf(versions) && AllHops(versions, hops, {})
      ensures hops == [] ==> r.NotApplicable? && writes == []
      ensures hops != [] && !LatestIs(versions, requested) ==> r.Mismatch? && writes == []
      ensures hops != [] && LatestIs(versions, requested) ==> Generated(versions, requested, coverage, hasPlaceholder, r, walked, writes)
      // how it ends, and what it wrote, by what the dispatches came to
      ensures forall k: nat | k < |writes| :: Told(answers(k), writes[k])
      ensures r.Done? ==> (r.status == Complete <==> forall k: nat | k < |walked| :: answers(k) == Answer(true))
      // the placeholder's write is the last one
      ensures DistinctKeys(versions) && hasPlaceholder ==>
                if r.Done? && r.requestedWritten then EndsWithPlaceholder(writes) else LeavesPlaceholder(writes)
      // nothing names an unknown version
      ensures broker.reliable && DistinctKeys(versions) && NotesPresent(versions) ==> !r.BrokerError?
      ensures AnsweredAs(answers, writes)
    {
      walked, writes := [], [];
      var transitions := ArchivedTransitions(versions);
      hops := transitions;
      if transitions == [] {
        r := NotApplicable;
      } else {
        assert transitions[0] in transitions;
        var latest := versions[|versions| - 1].key;
        if latest != requested {
          r := Mismatch;
        } else {
          r, walked, writes := GenerateMissing(versions, transitions, requested, coverage, hasPlaceholder);
          AllTold(answers, writes);
          AnsweredCompletely(answers, writes);
        }
      }
    }

    /** What the generation has done for a bill whose latest version is the requested one. */
    ghost predicate Generated(versions: seq<Version>, requested: VersionKey, coverage: Option<set<string>>, hasPlaceholder: bool,
                              r: Outcome, walked: seq<Transition>, writes: seq<Write>)
    {
      && (broker.reliable ==> AllHops(versions, walked, coverage.GetOr({})) && (r.NotApplicable? <==> walked == []))
      && (coverage.None? ==> walked == TransitionsOf(versions))
      && Wrote(versions, walked, requested, hasPlaceholder, writes)
      && !r.Mismatch? && (r.NotApplicable? ==> writes == [])
      && (r.Done? ==> |writes| == |walked| && r.status != Pending)
      && (r.Done? ==> (r.requestedWritten <==> exists t <- walked :: t.newer < |versions| && versions[t.newer].key == requested))
      && (r.LegBotError? ==> |writes| < |walked| && answers(|writes|).DispatchError?)
      && (r.Escaped? ==> |writes| < |walked| && answers(|writes|).HttpError?)
    }

    /** The transitions that are not covered yet. */
    method GenerateMissing(versions: seq<Version>, all: seq<Transition>, requested: VersionKey, coverage: Option<set<string>>, hasPlaceholder: bool)
      returns (r: Outcome, ghost walked: seq<Transition>, ghost writes: seq<Write>)
      requires broker.Valid() && LatestIs(versions, requested)
      requires all != [] && all == TransitionsOf(versions) && AllHops(versions, all, {})
      modifies broker
      ensures broker.Valid() && broker.log == old(broker.log) + writes && old(broker.versions) <= broker.versions
      ensures Generated(versions, requested, coverage, hasPlaceholder, r, walked, writes)
      ensures AnsweredAs(answers, writes) && (r.Done? ==> (r.status == Complete <==> AllComplete(writes)))
      ensures DistinctKeys(versions) && hasPlaceholder ==>
                if r.Done? && r.requestedWritten then EndsWithPlaceholder(writes) else LeavesPlaceholder(writes)
      ensures broker.reliable && DistinctKeys(versions) && NotesPresent(versions) ==> !r.BrokerError?
    {
      walked, writes := [], [];
      var transitions := all;
      if coverage.Some? {
        var failed: bool := *;
        if failed && !broker.reliable {
          return BrokerError, walked, writes;
        }
        transitions := Uncovered(versions, transitions, coverage.value);
        if transitions == [] {
          return NotApplicable, walked, writes;
        }
      }
      walked := transitions;
      r, writes := BackfillAndWalk(versions, transitions, requested, hasPlaceholder);
    }

    /** Its second half, over the transitions it does not skip. */
    method BackfillAndWalk(versions: seq<Version>, transitions: seq<Transition>, requested: VersionKey, hasPlaceholder: bool)
      returns (r: Outcome, ghost writes: seq<Write>)
      requires broker.Valid() && transitions != [] && Forward(versions, transitions) && LatestIs(versions, requested)
      modifies broker
      ensures broker.Valid() && broker.log == old(broker.log) + writes && old(broker.versions) <= broker.versions
      ensures r.Done? ==> r.status != Pending && (r.status == Complete <==> AllComplete(writes))
      ensures r.Done? ==> (r.requestedWritten <==> Asked(versions, transitions, requested))
      ensures forall w <- writes :: w.status != Pending
      ensures DistinctKeys(versions) && hasPlaceholder ==>
                if r.Done? && r.requestedWritten then EndsWithPlaceholder(writes) else LeavesPlaceholder(writes)
      ensures broker.reliable && DistinctKeys(versions) && NotesPresent(versions) ==> !r.BrokerError?
      ensures AnsweredAs(answers, writes) && EndsAt(answers, r, |writes|, |transitions|)
      ensures Wrote(versions, transitions, requested, hasPlaceholder, writes)
    {
      BackfillMissingVersions(broker, versions, versions[|versions| - 1].key);
      r, writes := Walk(versions, transitions, requested, hasPlaceholder);
      if DistinctKeys(versions) {
        RequestedIsLast(versions, transitions, requested, hasPlaceholder, writes);
        if r.BrokerError? && broker.reliable && NotesPresent(versions) {
          OlderVersionsAreListed(versions, transitions[|writes|]);
        }
      }
    }

    lemma EndsAsGenerated(versions: seq<Version>, requested: VersionKey, r: Outcome, walked: seq<Transition>, writes: seq<Write>)
      requires broker.reliable && !r.BrokerError? && AllHops(versions, TransitionsOf(versions), {})
      requires TransitionsOf(versions) == [] ==> r.NotApplicable?
      requires TransitionsOf(versions) != [] && !LatestIs(versions, requested) ==> r.Mismatch?
      requires TransitionsOf(versions) != [] && LatestIs(versions, requested) ==>
                 Generated(versions, requested, None, true, r, walked, writes)
      ensures EndsAs(versions, requested, r, |writes|)
    {
      if LatestIs(versions, requested) && DistinctKeys(versions) {
        AskedOfTheLatest(versions, requested);
      }
    }

    /** How the generation ends when it skips nothing. */
    predicate EndsAs(versions: seq<Version>, requested: VersionKey, r: Outcome, n: nat) {
      var transitions := TransitionsOf(versions);
      if transitions == [] then r.NotApplicable?
      else if !LatestIs(versions, requested) then r.Mismatch?
      else
        && EndsAt(answers, r, n, |transitions|)
        && (r.Done? && DistinctKeys(versions) ==> (r.requestedWritten <==> TransitionTo(versions, |versions| - 1).Some?))
    }

    /** A terminal `failed` write to the placeholder, tried once more if asked. */
    method FailPlaceholder(requested: VersionKey, again: bool) returns (ok: bool)
      requires broker.Valid()
      modifies broker
      ensures broker.Valid() && broker.log == if ok then old(broker.log) + [FailedPlaceholder(requested)] else old(broker.log)
      ensures broker.reliable ==> ok
    {
      ok := broker.WriteArtifact(Placeholder, requested, None, Failed);
      if !ok && again {
        ok := broker.WriteArtifact(Placeholder, requested, None, Failed);
      }
    }

    lemma EndsFinally(versions: seq<Version>, requested: VersionKey, r: Outcome, writes: seq<Write>)
      requires EndsAs(versions, requested, r, |writes|) && AnsweredAs(answers, writes) && DistinctKeys(versions)
      requires r.Done? && r.requestedWritten ==> writes != []
      ensures !r.BrokerError? ==>
                FinalStatus(versions, requested, answers)
                == if r.Escaped? then Pending else if r.Done? && r.requestedWritten then writes[|writes| - 1].status else Failed
    {
      var total := |TransitionsOf(versions)|;
      AnsweredAll(answers, writes);
      if LatestIs(versions, requested) && total > 0 && HttpErrorFirst(answers, total) {
        var n: nat :| n < total && answers(n).HttpError? && AllAnswer(answers, n);
      }
    }

    /** The generation for a placeholder. */
    method GenerateForPlaceholder(versions: seq<Version>, requested: VersionKey) returns (r: Outcome, ghost writes: seq<Write>)
      requires broker.Valid() && DistinctKeys(versions)
      modifies broker
      ensures broker.Valid() && broker.log == old(broker.log) + writes && old(broker.versions) <= broker.versions
      ensures AnsweredAs(answers, writes) && forall w <- writes :: w.status != Pending
      ensures if r.Done? && r.requestedWritten then EndsWithPlaceholder(writes) else LeavesPlaceholder(writes)
      ensures r.Escaped? ==> answers(|writes|).HttpError?
      ensures broker.reliable && NotesPresent(versions) ==> !r.BrokerError?
      ensures broker.reliable && !r.BrokerError? ==> EndsAs(versions, requested, r, |writes|)
    {
      ghost var hops, walked;
      r, hops, walked, writes := GenerateAndStore(versions, requested, None, true);
      if broker.reliable && !r.BrokerError? {
        EndsAsGenerated(versions, requested, r, walked, writes);
      }
    }

    /** `dispatch_and_record_bill_artifact` for a changelog, after its pending row was written. `escaped`
        is what its handlers do not catch. */
    method ResolvePlaceholder(versions: seq<Version>, requested: VersionKey) returns (escaped: bool, ghost writes: seq<Write>)
      requires broker.Valid() && DistinctKeys(versions)
      modifies broker
      ensures broker.Valid() && broker.log == old(broker.log) + writes
      ensures (LeavesPlaceholder(writes) || EndsWithPlaceholder(writes)) && forall w <- writes :: w.status != Pending
      ensures escaped ==> LeavesPlaceholder(writes) && AnsweredAs(answers, writes) && answers(|writes|).HttpError?
      ensures !escaped && broker.reliable ==> EndsWithPlaceholder(writes)
      ensures broker.reliable && NotesPresent(versions) ==>
                var final := FinalStatus(versions, requested, answers);
                if escaped then final == Pending else writes[|writes| - 1].status == final
    {
      var r;
      r, writes := GenerateForPlaceholder(versions, requested);
      escaped := r.Escaped?;
      if broker.reliable && !r.BrokerError? {
        EndsFinally(versions, requested, r, writes);
      }
      if escaped || (r.Done? && r.requestedWritten) {
        return;
      }
      // a write that fails inside the handled block is tried once more by the handler
      var ok := FailPlaceholder(requested, r.Done? || r.NotApplicable?);
      if ok {
        assert old(broker.log) + writes + [FailedPlaceholder(requested)] == old(broker.log) + (writes + [FailedPlaceholder(requested)]);
        EndsWhenAdded(writes, FailedPlaceholder(requested));
        writes := writes + [FailedPlaceholder(requested)];
      }
    }

    /** The whole on-demand dispatch. `started` is false when the pending row could not be written. */
    method DispatchAndRecord(versions: seq<Version>, requested: VersionKey)
      returns (started: bool, escaped: bool, ghost writes: seq<Write>)
      requires broker.Valid() && DistinctKeys(versions)
      modifies broker
      ensures broker.Valid() && broker.log == old(broker.log) + writes
      ensures broker.reliable ==> started
      // the pending row always ends, exactly unless an HTTP error escapes
      ensures started ==> Placeholder in broker.rows
      ensures started && broker.reliable ==> (broker.rows[Placeholder] == Pending <==> escaped)
      ensures started && broker.reliable && NotesPresent(versions) ==>
                (broker.rows[Placeholder] == Pending <==> LatestIs(versions, requested) && HttpErrorFirst(answers, |Hops(versions)|))
      // it ends complete exactly when every dispatch answered and the last, the requested one's, sufficed
      ensures started && broker.reliable && NotesPresent(versions) ==>
                (broker.rows[Placeholder] == Complete <==>
                   && LatestIs(versions, requested) && HasTransition(versions, |versions| - 1)
                   && AllAnswer(answers, |Hops(versions)|) && |Hops(versions)| > 0 && answers(|Hops(versions)| - 1) == Answer(true))
      ensures escaped ==> exists n: nat :: answers(n).HttpError? && AllAnswer(answers, n)
      // and a complete one is never overwritten
      ensures CompleteIsFinal(writes)
    {
      started := broker.WriteArtifact(Placeholder, requested, None, Pending);
      escaped, writes := false, [];
      if started {
        ghost var rest;
        escaped, rest := ResolveStarted(versions, requested, old(broker.log));
        writes := [PendingPlaceholder(requested)] + rest;
        assert old(broker.log) + [PendingPlaceholder(requested)] + rest == old(broker.log) + writes;
        PendingFirst(PendingPlaceholder(requested), rest);
        FinalStatusExactly(versions, requested, answers);
        if escaped {
          AnsweredAll(answers, rest);
        }
      }
    }

    /** Its rest, once the pending row is written. */
    method ResolveStarted(versions: seq<Version>, requested: VersionKey, ghost start: seq<Write>)
      returns (escaped: bool, ghost rest: seq<Write>)
      requires broker.Valid() && DistinctKeys(versions) && broker.log == start + [PendingPlaceholder(requested)]
      modifies broker
      ensures broker.Valid() && broker.log == start + [PendingPlaceholder(requested)] + rest
      ensures Placeholder in broker.rows && CompleteIsFinal(rest)
      ensures broker.reliable ==> (broker.rows[Placeholder] == Pending <==> escaped)
      ensures broker.reliable && NotesPresent(versions) ==> broker.rows[Placeholder] == FinalStatus(versions, requested, answers)
      ensures escaped ==> AnsweredAs(answers, rest) && answers(|rest|).HttpError?
    {
      escaped, rest := ResolvePlaceholder(versions, requested);
      PlaceholderEnds(start, PendingPlaceholder(requested), rest);
      if EndsWithPlaceholder(rest) {
        PlaceholderHoldsLast(start + [PendingPlaceholder(requested)], rest);
      }
      OnePlaceholderWriteIsFinal(rest);
    }
  }

  /** Two versions, the second with a diff, and a CAMS that answers the one dispatch with an HTTP error:
      nothing fails that the broker could be blamed for, and the placeholder is pending for good. */
  method OneHttpErrorStrandsThePlaceholder() returns (broker: Broker)
    ensures broker.reliable && Placeholder in broker.rows && broker.rows[Placeholder] == Pending
  {
    var filed := Version(VersionKey("2026-01-05", "Filed"), Some("first text"), None, None);
    var enrolled := Version(VersionKey("2026-02-09", "Enrolled"), Some("second text"), None, Some("a diff"));
    var versions := [filed, enrolled];
    broker := new Broker(true, {});
    var walk := new ChangelogWalk(broker, _ => HttpError);
    ghost var latest := TransitionTo(versions, 1);
    assert latest == Some(Transition(0, 1)) by {
      BaselineIsEarlier(versions, 1);
    }
    assert TransitionsOf(versions) == TransitionsUpTo(versions, 1) + [latest.value];
    CountTransitions(versions);
    assert walk.answers(0).HttpError? && AllAnswer(walk.answers, 0);
    var started, escaped;
    ghost var writes;
    started, escaped, writes := walk.DispatchAndRecord(versions, enrolled.key);
  }

  /** A row holds what was last written to it. */
  lemma {:induction false} LastWriteDecides(log: seq<Write>, k: nat)
    requires k < |log| && forall j | k < j < |log| :: log[j].row != log[k].row
    ensures log[k].row in AfterWrites(log) && AfterWrites(log)[log[k].row] == log[k].status
  {
    if k < |log| - 1 {
      LastWriteDecides(log[..|log| - 1], k);
    }
  }

  /** The placeholder is pending until another write touches it. */
  lemma {:induction false} PlaceholderEnds(start: seq<Write>, first: Write, rest: seq<Write>)
    requires first.row == Placeholder && first.status == Pending && forall w <- rest :: w.status != Pending
    ensures var log := start + [first] + rest;
            && Placeholder in AfterWrites(log)
            && (AfterWrites(log)[Placeholder] == Pending <==> forall w <- rest :: w.row != Placeholder)
  {
    var log := start + [first] + rest;
    if rest == [] {
      LastWriteDecides(log, |start|);
    } else {
      var n := |log| - 1;
      assert log[..n] == start + [first] + rest[..|rest| - 1];
      assert rest == rest[..|rest| - 1] + [rest[|rest| - 1]];
      PlaceholderEnds(start, first, rest[..|rest| - 1]);
    }
  }

  lemma PlaceholderHoldsLast(start: seq<Write>, rest: seq<Write>)
    requires EndsWithPlaceholder(rest)
    ensures Placeholder in AfterWrites(start + rest) && AfterWrites(start + rest)[Placeholder] == rest[|rest| - 1].status
  {
    LastWriteDecides(start + rest, |start| + |rest| - 1);
  }

  /** Once these writes set the placeholder complete, none touches it again. */
  predicate CompleteIsFinal(writes: seq<Write>) {
    forall j, k | 0 <= j < k < |writes| :: writes[j].row == Placeholder && writes[j].status == Complete ==> writes[k].row != Placeholder
  }

  lemma PendingFirst(first: Write, rest: seq<Write>)
    requires CompleteIsFinal(rest) && first.status == Pending
    ensures CompleteIsFinal([first] + rest)
  {
    var all := [first] + rest;
    forall j, k | 0 <= j < k < |all| && all[j].row == Placeholder && all[j].status == Complete
      ensures all[k].row != Placeholder
    {
      assert all[j] == rest[j - 1] && all[k] == rest[k - 1];
    }
  }

  /** Every version has a note. */
  predicate NotesPresent(versions: seq<Version>) {
    forall v <- versions :: v.key.note != ""
  }

  /** With distinct keys, an older version of a transition is never the latest one, so the backfill makes
      a row for it. */
  lemma OlderVersionsAreListed(versions: seq<Version>, t: Transition)
    requires DistinctKeys(versions) && NotesPresent(versions) && t.older < t.newer < |versions|
    ensures exists v <- versions :: v.key == versions[t.older].key && v.key.note != "" && v.key != versions[|versions| - 1].key
  {
    assert versions[t.older] in versions;
  }

  /** Only the last transition of a walk can be to the latest version. */
  lemma RequestedIsLast(versions: seq<Version>, transitions: seq<Transition>, requested: VersionKey, hasPlaceholder: bool, writes: seq<Write>)
    requires DistinctKeys(versions) && Forward(versions, transitions) && transitions != []
    requires versions != [] && requested == versions[|versions| - 1].key
    requires Wrote(versions, transitions, requested, hasPlaceholder, writes)
    ensures hasPlaceholder ==>
              if |writes| == |transitions| && Asked(versions, transitions, requested) then EndsWithPlaceholder(writes)
              else LeavesPlaceholder(writes)
  {
    var n := |transitions|;
    forall k | 0 <= k < n
      ensures versions[transitions[k].newer].key == requested ==> k == n - 1
    {
      if k < n - 1 {
        assert transitions[k].newer < transitions[n - 1].newer;
      }
    }
    assert forall k | 0 <= k < |writes| :: k < n - 1 ==> writes[k].row != Placeholder;
    assert transitions[n - 1] in transitions;
  }

  lemma AskedOfTheLatest(versions: seq<Version>, requested: VersionKey)
    requires DistinctKeys(versions) && LatestIs(versions, requested) && Forward(versions, TransitionsOf(versions))
    ensures Asked(versions, TransitionsOf(versions), requested) <==> TransitionTo(versions, |versions| - 1).Some?
  {
    var n := |versions|;
    TransitionsRunForward(versions, n);
    if TransitionTo(versions, n - 1).Some? {
      NoTransitionIsMissing(versions, n, n - 1);
    }
  }

  function FailedPlaceholder(requested: VersionKey): Write {
    Write(Placeholder, requested, None, Failed)
  }

  function PendingPlaceholder(requested: VersionKey): Write {
    Write(Placeholder, requested, None, Pending)
  }

  predicate LeavesPlaceholder(writes: seq<Write>) {
    forall w <- writes :: w.row != Placeholder
  }

  /** The last write, and only that, is to the placeholder. */
  predicate EndsWithPlaceholder(writes: seq<Write>) {
    writes != [] && writes[|writes| - 1].row == Placeholder && LeavesPlaceholder(writes[..|writes| - 1])
  }

  lemma OnePlaceholderWriteIsFinal(writes: seq<Write>)
    requires LeavesPlaceholder(writes) || EndsWithPlaceholder(writes)
    ensures CompleteIsFinal(writes)
  {
    forall j | 0 <= j < |writes| - 1
      ensures writes[j].row != Placeholder
    {
      assert writes[j] in writes && writes[j] in writes[..|writes| - 1];
    }
  }

  lemma EndsWhenAdded(writes: seq<Write>, w: Write)
    requires LeavesPlaceholder(writes) && w.row == Placeholder
    ensures EndsWithPlaceholder(writes + [w])
  {
    assert (writes + [w])[..|writes|] == writes;
  }

  /** The loop's variables say of the writes so far whether one failed, and whether one was asked for. */
  predicate Tallied(versions: seq<Version>, transitions: seq<Transition>, requested: VersionKey, writes: seq<Write>,
                    firstFailure: Option<Status>, requestedWritten: bool)
    requires Forward(versions, transitions) && |writes| <= |transitions|
  {
    && (firstFailure.None? <==> AllComplete(writes)) && (firstFailure.Some? ==> firstFailure.value == Failed)
    && (requestedWritten <==> Asked(versions, transitions[..|writes|], requested))
  }

  lemma TalliedOneMore(versions: seq<Version>, transitions: seq<Transition>, requested: VersionKey, writes: seq<Write>, w: Write,
                       firstFailure: Option<Status>, requestedWritten: bool)
    requires Forward(versions, transitions) && |writes| < |transitions| && w.status != Pending
    requires Tallied(versions, transitions, requested, writes, firstFailure, requestedWritten)
    ensures Tallied(versions, transitions, requested, writes + [w],
                    if firstFailure == None && w.status != Complete then Some(w.status) else firstFailure,
                    requestedWritten || versions[transitions[|writes|].newer].key == requested)
  {
    var k := |writes|;
    assert transitions[..k + 1] == transitions[..k] + [transitions[k]];
  }

  predicate AllComplete(writes: seq<Write>) {
    forall w <- writes :: w.status == Complete
  }

  /** One of the transitions is to the version the caller asked for. */
  predicate Asked(versions: seq<Version>, transitions: seq<Transition>, requested: VersionKey)
    requires forall t <- transitions :: t.newer < |versions|
  {
    exists t <- transitions :: versions[t.newer].key == requested
  }

  /** After some writes of a walk: what they are, and that each named a version the broker knew, because
      it had it before or an earlier write created it. */
  predicate Walked(versions: seq<Version>, transitions: seq<Transition>, requested: VersionKey, hasPlaceholder: bool,
                   before: set<VersionKey>, writes: seq<Write>, now: set<VersionKey>)
    requires Forward(versions, transitions)
  {
    && Wrote(versions, transitions, requested, hasPlaceholder, writes)
    && now == before + Targets(versions, transitions[..|writes|])
    && forall k | 0 <= k < |writes| :: NamesKnown(versions, transitions, k, before)
  }

  predicate NamesKnown(versions: seq<Version>, transitions: seq<Transition>, k: nat, before: set<VersionKey>)
    requires Forward(versions, transitions) && k < |transitions|
  {
    versions[transitions[k].older].key in before + Targets(versions, transitions[..k])
  }

  lemma WalkedOneMore(versions: seq<Version>, transitions: seq<Transition>, requested: VersionKey, hasPlaceholder: bool,
                      before: set<VersionKey>, writes: seq<Write>, now: set<VersionKey>, status: Status)
    requires Forward(versions, transitions) && |writes| < |transitions| && status != Pending
    requires Walked(versions, transitions, requested, hasPlaceholder, before, writes, now)
    requires versions[transitions[|writes|].older].key in now
    ensures var t := transitions[|writes|];
            Walked(versions, transitions, requested, hasPlaceholder, before,
                   writes + [Write(RowFor(versions, t, requested, hasPlaceholder), versions[t.newer].key, Some(versions[t.older].key), status)],
                   now + {versions[t.newer].key})
  {
    var n, t := |writes|, transitions[|writes|];
    var w := Write(RowFor(versions, t, requested, hasPlaceholder), versions[t.newer].key, Some(versions[t.older].key), status);
    TargetsOneMore(versions, transitions, n);
    WroteOneMore(versions, transitions, requested, hasPlaceholder, writes, w);
    assert NamesKnown(versions, transitions, n, before);
    forall k | 0 <= k < |writes + [w]|
      ensures NamesKnown(versions, transitions, k, before)
    {
    }
  }

  lemma TargetsOneMore(versions: seq<Version>, transitions: seq<Transition>, n: nat)
    requires Forward(versions, transitions) && n < |transitions|
    ensures Targets(versions, transitions[..n + 1]) == Targets(versions, transitions[..n]) + {versions[transitions[n].newer].key}
  {
    assert transitions[..n + 1] == transitions[..n] + [transitions[n]];
  }

  lemma WroteOneMore(versions: seq<Version>, transitions: seq<Transition>, requested: VersionKey, hasPlaceholder: bool,
                     writes: seq<Write>, w: Write)
    requires Wrote(versions, transitions, requested, hasPlaceholder, writes) && |writes| < |transitions|
    requires transitions[|writes|].older < transitions[|writes|].newer < |versions| && w.status != Pending
    requires var t := transitions[|writes|];
             w == Write(RowFor(versions, t, requested, hasPlaceholder), versions[t.newer].key, Some(versions[t.older].key), w.status)
    ensures Wrote(versions, transitions, requested, hasPlaceholder, writes + [w])
  {
    forall k | 0 <= k < |writes + [w]|
      ensures var t := transitions[k];
              && t.older < t.newer < |versions| && (writes + [w])[k].status != Pending
              && (writes + [w])[k] == Write(RowFor(versions, t, requested, hasPlaceholder), versions[t.newer].key,
                                            Some(versions[t.older].key), (writes + [w])[k].status)
    {
      if k < |writes| {
        assert (writes + [w])[k] == writes[k];
      }
    }
  }
}
