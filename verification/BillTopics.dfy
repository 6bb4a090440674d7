/** The filter on LegBot's bill topics (`_filter_bill_topics`): raw names are matched to a list of
    canonical ones, deduplicated and capped without losing the primary. */
module BillTopics {
  import opened Wrappers

  type Topic = string

  /** The list of canonical names; `fold` is `strip().casefold()`. */
  datatype Taxonomy = Taxonomy(names: seq<Topic>, maxTopics: nat, fold: Topic -> string)

  datatype Selection = Selection(primary: Topic, topics: seq<Topic>)

  /** `canonical_by_fold`: of two names that fold alike, the later one. */
  function ByFold(names: seq<Topic>, fold: Topic -> string): map<string, Topic> {
    if names == [] then map[] else ByFold(names[..|names| - 1], fold)[fold(names[|names| - 1]) := names[|names| - 1]]
  }

  function Canonical(t: Taxonomy, raw: Topic): Option<Topic> {
    var byFold := ByFold(t.names, t.fold);
    if t.fold(raw) in byFold then Some(byFold[t.fold(raw)]) else None
  }

  /** The canonical names of an answer, each at its first mention. */
  function Members(t: Taxonomy, raw: seq<Topic>): seq<Topic> {
    if raw == [] then []
    else
      var earlier, last := Members(t, raw[..|raw| - 1]), Canonical(t, raw[|raw| - 1]);
      if last.Some? && last.value !in earlier then earlier + [last.value] else earlier
  }

  function Without(topics: seq<Topic>, topic: Topic): seq<Topic> {
    if topics == [] then []
    else (if topics[0] == topic then [] else [topics[0]]) + Without(topics[1..], topic)
  }

  function Take(topics: seq<Topic>, count: nat): seq<Topic> {
    if |topics| <= count then topics else topics[..count]
  }

  /** An answer's primary topic, when it names one and it is canonical. */
  function PrimaryOf(t: Taxonomy, rawPrimary: Topic): Option<Topic> {
    if rawPrimary == "" then None else Canonical(t, rawPrimary)
  }

  /** The members with a canonical primary among them, at most `maxTopics` of them. */
  function Capped(t: Taxonomy, topics: seq<Topic>, primary: Option<Topic>): seq<Topic>
    requires t.maxTopics >= 1
  {
    var all := if primary.Some? && primary.value !in topics then [primary.value] + topics else topics;
    if |all| <= t.maxTopics then all
    else
      match primary
      case Some(p) => [p] + Take(Without(all, p), t.maxTopics - 1)
      case None => all[..t.maxTopics]
  }

  function Filtered(t: Taxonomy, raw: seq<Topic>, rawPrimary: Topic): Option<Selection>
    requires t.maxTopics >= 1
  {
    var primary := PrimaryOf(t, rawPrimary);
    var topics := Capped(t, Members(t, raw), primary);
    if topics == [] then None else Some(Selection(primary.GetOr(topics[0]), topics))
  }

  // ---------------------------------------------------------------------------------------------
  // What it promises
  // ---------------------------------------------------------------------------------------------

  predicate Distinct(topics: seq<Topic>) {
    forall i, j :: 0 <= i < j < |topics| ==> topics[i] != topics[j]
  }

  lemma {:induction false} FoldedNamesAreNames(names: seq<Topic>, fold: Topic -> string, key: string)
    requires key in ByFold(names, fold)
    ensures ByFold(names, fold)[key] in names && fold(ByFold(names, fold)[key]) == key
  {
    if fold(names[|names| - 1]) != key {
      FoldedNamesAreNames(names[..|names| - 1], fold, key);
    }
  }

  predicate IsCanonical(t: Taxonomy, topic: Topic) {
    topic in t.names && Canonical(t, topic) == Some(topic)
  }

  /** Matching a raw name gives a name of the list that matches itself. */
  lemma CanonicalIsCanonical(t: Taxonomy, raw: Topic)
    requires Canonical(t, raw).Some?
    ensures IsCanonical(t, Canonical(t, raw).value)
  {
    FoldedNamesAreNames(t.names, t.fold, t.fold(raw));
  }

  lemma {:induction false} MembersAreCanonical(t: Taxonomy, raw: seq<Topic>)
    ensures Distinct(Members(t, raw))
    ensures forall topic <- Members(t, raw) :: IsCanonical(t, topic)
    ensures forall r <- raw :: Canonical(t, r).Some? ==> Canonical(t, r).value in Members(t, raw)
    ensures forall topic <- Members(t, raw) :: exists r <- raw :: Canonical(t, r) == Some(topic)
  {
    if raw != [] {
      MembersAreCanonical(t, raw[..|raw| - 1]);
      assert raw == raw[..|raw| - 1] + [raw[|raw| - 1]];
      if Canonical(t, raw[|raw| - 1]).Some? {
        CanonicalIsCanonical(t, raw[|raw| - 1]);
      }
      forall topic <- Members(t, raw)
        ensures exists r <- raw :: Canonical(t, r) == Some(topic)
      {
        if topic in Members(t, raw[..|raw| - 1]) {
          var r :| r in raw[..|raw| - 1] && Canonical(t, r) == Some(topic);
        } else {
          assert Canonical(t, raw[|raw| - 1]) == Some(topic);
        }
      }
    }
  }

  lemma {:induction false} WithoutIsExact(topics: seq<Topic>, topic: Topic)
    requires Distinct(topics)
    ensures Distinct(Without(topics, topic))
    ensures forall other :: other in Without(topics, topic) <==> other in topics && other != topic
  {
    if topics != [] {
      WithoutIsExact(topics[1..], topic);
      assert topics == [topics[0]] + topics[1..];
      var rest := Without(topics[1..], topic);
      forall k | 0 <= k < |rest|
        ensures rest[k] != topics[0]
      {
        assert rest[k] in rest;
      }
    }
  }

  lemma TakingKeepsDistinct(topics: seq<Topic>, count: nat)
    requires Distinct(topics)
    ensures Distinct(Take(topics, count)) && |Take(topics, count)| <= count
    ensures forall topic <- Take(topics, count) :: topic in topics
  {
  }

  lemma CappingKeeps(t: Taxonomy, topics: seq<Topic>, primary: Option<Topic>)
    requires t.maxTopics >= 1 && Distinct(topics)
    ensures var r := Capped(t, topics, primary);
            && Distinct(r) && |r| <= t.maxTopics
            && (forall topic <- r :: topic in topics || primary == Some(topic))
            && (primary.Some? ==> primary.value in r)
            && (r == [] <==> topics == [] && primary.None?)
  {
    var all := if primary.Some? && primary.value !in topics then [primary.value] + topics else topics;
    if |all| > t.maxTopics && primary.Some? {
      WithoutIsExact(all, primary.value);
      var rest := Take(Without(all, primary.value), t.maxTopics - 1);
      TakingKeepsDistinct(Without(all, primary.value), t.maxTopics - 1);
      forall k | 0 <= k < |rest|
        ensures rest[k] != primary.value
      {
        assert rest[k] in rest;
      }
    }
  }

  /** The selection is a duplicate-free list of canonical names, at most `maxTopics` long, that contains
      its primary; each name comes from the answer; a valid answered primary always is the primary; and
      there is none exactly when the answer names no canonical topic at all. */
  lemma SelectionIsSound(t: Taxonomy, raw: seq<Topic>, rawPrimary: Topic)
    requires t.maxTopics >= 1
    ensures var r, primary := Filtered(t, raw, rawPrimary), PrimaryOf(t, rawPrimary);
            && (r.None? <==> primary.None? && forall topic <- raw :: Canonical(t, topic).None?)
            && (r.Some? ==>
                  && Distinct(r.value.topics) && 1 <= |r.value.topics| <= t.maxTopics
                  && r.value.primary in r.value.topics
                  && (primary.Some? ==> r.value.primary == primary.value)
                  && (forall topic <- r.value.topics :: IsCanonical(t, topic))
                  && (forall topic <- r.value.topics :: topic in Members(t, raw) || primary == Some(topic)))
  {
    MembersAreCanonical(t, raw);
    CappingKeeps(t, Members(t, raw), PrimaryOf(t, rawPrimary));
    if PrimaryOf(t, rawPrimary).Some? {
      CanonicalIsCanonical(t, rawPrimary);
    }
    if Members(t, raw) != [] {
      assert Members(t, raw)[0] in Members(t, raw);
    }
  }

  /** Nothing is cut that fits: below the cap, every canonical name of the answer is kept. */
  lemma NothingFittingIsCut(t: Taxonomy, raw: seq<Topic>, rawPrimary: Topic, topic: Topic)
    requires t.maxTopics >= 1
    requires topic in Members(t, raw) && Filtered(t, raw, rawPrimary).Some?
    ensures |Filtered(t, raw, rawPrimary).value.topics| < t.maxTopics ==> topic in Filtered(t, raw, rawPrimary).value.topics
  {
    MembersAreCanonical(t, raw);
    var primary, topics := PrimaryOf(t, rawPrimary), Members(t, raw);
    var all := if primary.Some? && primary.value !in topics then [primary.value] + topics else topics;
    if primary.Some? {
      WithoutIsExact(all, primary.value);
      LengthWithout(all, primary.value);
    }
  }

  lemma {:induction false} LengthWithout(topics: seq<Topic>, topic: Topic)
    requires Distinct(topics)
    ensures |Without(topics, topic)| == |topics| - if topic in topics then 1 else 0
  {
    if topics != [] {
      LengthWithout(topics[1..], topic);
    }
  }

  lemma {:induction false} MembersOfMembers(t: Taxonomy, topics: seq<Topic>)
    requires Distinct(topics) && forall topic <- topics :: IsCanonical(t, topic)
    ensures Members(t, topics) == topics
  {
    if topics != [] {
      var n := |topics| - 1;
      MembersOfMembers(t, topics[..n]);
      assert topics == topics[..n] + [topics[n]];
      assert topics[n] !in topics[..n] && topics[n] in topics;
    }
  }

  /** Filtering a selection again changes nothing. */
  lemma FilteringIsIdempotent(t: Taxonomy, raw: seq<Topic>, rawPrimary: Topic)
    requires t.maxTopics >= 1 && "" !in t.names
    ensures var r := Filtered(t, raw, rawPrimary);
            r.Some? ==> Filtered(t, r.value.topics, r.value.primary) == r
  {
    var r := Filtered(t, raw, rawPrimary);
    if r.Some? {
      SelectionIsSound(t, raw, rawPrimary);
      MembersOfMembers(t, r.value.topics);
      assert IsCanonical(t, r.value.primary);
    }
  }

  // ---------------------------------------------------------------------------------------------
  // Which topics, in which order
  // ---------------------------------------------------------------------------------------------

  /** The name of the list that a raw one stands for: of those that fold like it, the last. */
  ghost predicate Names(t: Taxonomy, raw: Topic, name: Topic) {
    exists i :: 0 <= i < |t.names| && t.names[i] == name && t.fold(name) == t.fold(raw)
                && forall j | i < j < |t.names| :: t.fold(t.names[j]) != t.fold(raw)
  }

  lemma {:induction false} LastNameWins(names: seq<Topic>, fold: Topic -> string, key: string)
    ensures key in ByFold(names, fold) <==> exists i :: 0 <= i < |names| && fold(names[i]) == key
    ensures key in ByFold(names, fold) ==>
              exists i :: 0 <= i < |names| && names[i] == ByFold(names, fold)[key] && fold(names[i]) == key
                          && forall j | i < j < |names| :: fold(names[j]) != key
  {
    if names != [] {
      LastNameWins(names[..|names| - 1], fold, key);
    }
  }

  lemma CanonicalIsTheName(t: Taxonomy, raw: Topic, name: Topic)
    ensures Canonical(t, raw) == Some(name) <==> Names(t, raw, name)
    ensures Canonical(t, raw).None? <==> forall n <- t.names :: t.fold(n) != t.fold(raw)
  {
    LastNameWins(t.names, t.fold, t.fold(raw));
    if Names(t, raw, name) {
      var i :| 0 <= i < |t.names| && t.names[i] == name && t.fold(name) == t.fold(raw)
               && forall j | i < j < |t.names| :: t.fold(t.names[j]) != t.fold(raw);
      assert t.fold(t.names[i]) == t.fold(raw);
    }
  }

  /** The answer names `one` before it ever names `other`. */
  ghost predicate NamedBefore(t: Taxonomy, raw: seq<Topic>, one: Topic, other: Topic) {
    exists i :: 0 <= i < |raw| && Names(t, raw[i], one) && forall j | 0 <= j <= i :: !Names(t, raw[j], other)
  }

  /** The answer names it. */
  ghost predicate Named(t: Taxonomy, raw: seq<Topic>, name: Topic) {
    exists r <- raw :: Names(t, r, name)
  }

  predicate Before(t: Taxonomy, raw: seq<Topic>, one: Topic, other: Topic) {
    exists i :: 0 <= i < |raw| && Canonical(t, raw[i]) == Some(one) && forall j | 0 <= j <= i :: Canonical(t, raw[j]) != Some(other)
  }

  lemma BeforeIsNamedBefore(t: Taxonomy, raw: seq<Topic>, one: Topic, other: Topic)
    ensures Before(t, raw, one, other) <==> NamedBefore(t, raw, one, other)
  {
    forall i | 0 <= i < |raw|
      ensures Canonical(t, raw[i]) == Some(one) <==> Names(t, raw[i], one)
      ensures Canonical(t, raw[i]) == Some(other) <==> Names(t, raw[i], other)
    {
      CanonicalIsTheName(t, raw[i], one);
      CanonicalIsTheName(t, raw[i], other);
    }
  }

  /** In the order of their first mention. */
  predicate InOrder(t: Taxonomy, raw: seq<Topic>, topics: seq<Topic>) {
    forall i, j | 0 <= i < j < |topics| :: Before(t, raw, topics[i], topics[j])
  }

  lemma {:induction false} MembersAreInOrder(t: Taxonomy, raw: seq<Topic>)
    ensures InOrder(t, raw, Members(t, raw))
  {
    if raw != [] {
      var n := |raw| - 1;
      var earlier, all := Members(t, raw[..n]), Members(t, raw);
      MembersAreInOrder(t, raw[..n]);
      MembersAreCanonical(t, raw[..n]);
      forall i, j | 0 <= i < j < |all|
        ensures Before(t, raw, all[i], all[j])
      {
        if j < |earlier| {
          BeforeInMore(t, raw, n, all[i], all[j]);
        } else {
          NamedSoFar(t, raw, n, all[i], all[j]);
        }
      }
    }
  }

  lemma BeforeInMore(t: Taxonomy, raw: seq<Topic>, n: nat, one: Topic, other: Topic)
    requires n <= |raw| && Before(t, raw[..n], one, other)
    ensures Before(t, raw, one, other)
  {
    var i :| 0 <= i < n && Canonical(t, raw[..n][i]) == Some(one) && forall j | 0 <= j <= i :: Canonical(t, raw[..n][j]) != Some(other);
    assert Canonical(t, raw[i]) == Some(one) && forall j | 0 <= j <= i :: Canonical(t, raw[j]) == Canonical(t, raw[..n][j]);
  }

  lemma NamedSoFar(t: Taxonomy, raw: seq<Topic>, n: nat, one: Topic, other: Topic)
    requires n <= |raw| && one in Members(t, raw[..n]) && other !in Members(t, raw[..n])
    ensures Before(t, raw, one, other)
  {
    MembersAreCanonical(t, raw[..n]);
    var r :| r in raw[..n] && Canonical(t, r) == Some(one);
    var i :| 0 <= i < n && raw[..n][i] == r;
    forall j | 0 <= j <= i
      ensures Canonical(t, raw[j]) != Some(other)
    {
      assert raw[j] in raw[..n];
    }
  }

  lemma {:induction false} WithoutKeepsOrder(t: Taxonomy, raw: seq<Topic>, topics: seq<Topic>, topic: Topic)
    requires InOrder(t, raw, topics)
    ensures InOrder(t, raw, Without(topics, topic))
    ensures forall other <- Without(topics, topic) :: other in topics
  {
    if topics != [] {
      assert topics == [topics[0]] + topics[1..];
      WithoutKeepsOrder(t, raw, topics[1..], topic);
      var rest := Without(topics[1..], topic);
      forall j | 0 <= j < |rest|
        ensures Before(t, raw, topics[0], rest[j])
      {
        assert rest[j] in rest;
        var k :| 0 <= k < |topics| - 1 && topics[1..][k] == rest[j];
        assert topics[k + 1] == rest[j];
      }
    }
  }

  /** What a cap may leave of members that come in the order of their first mention: when it cuts, the
      ones it cuts are mentioned after all that stay, the primary aside, which comes first; and all stay
      in order. */
  predicate CutInOrder(t: Taxonomy, raw: seq<Topic>, members: seq<Topic>, primary: Option<Topic>, r: seq<Topic>) {
    && (forall x, y | x in r && primary != Some(x) && y in members && y !in r :: |r| == t.maxTopics && Before(t, raw, x, y))
    && (forall i, j | 0 <= i < j < |r| && primary != Some(r[i]) && primary != Some(r[j]) :: Before(t, raw, r[i], r[j]))
    && (primary.Some? && (primary.value !in members || exists x <- members :: x !in r) ==> r != [] && r[0] == primary.value)
    && (primary.Some? && primary.value in members && (forall x <- members :: x in r) ==> r == members)
    && (primary.None? ==> r <= members)
  }

  lemma CappingKeepsTheFirst(t: Taxonomy, raw: seq<Topic>, members: seq<Topic>, primary: Option<Topic>)
    requires t.maxTopics >= 1 && Distinct(members) && InOrder(t, raw, members)
    ensures CutInOrder(t, raw, members, primary, Capped(t, members, primary))
  {
    if primary.None? {
      CutWithoutPrimary(t, raw, members);
    } else {
      var p := primary.value;
      var all := if p !in members then [p] + members else members;
      if |all| <= t.maxTopics {
        assert forall x <- members :: x in all;
        assert p !in members ==> forall i | 1 <= i < |all| :: all[i] == members[i - 1];
      } else {
        CutWithPrimary(t, raw, members, p);
      }
    }
  }

  lemma CutWithoutPrimary(t: Taxonomy, raw: seq<Topic>, members: seq<Topic>)
    requires t.maxTopics >= 1 && InOrder(t, raw, members)
    ensures CutInOrder(t, raw, members, None, Capped(t, members, None))
  {
    var r := Capped(t, members, None);
    assert forall i | 0 <= i < |r| :: members[i] == r[i] && members[i] in r;
    forall x, y | x in r && y in members && y !in r
      ensures |r| == t.maxTopics && Before(t, raw, x, y)
    {
      var i :| 0 <= i < |r| && r[i] == x;
      var j :| 0 <= j < |members| && members[j] == y;
      assert i < j && Before(t, raw, members[i], members[j]);
    }
  }

  lemma CutWithPrimary(t: Taxonomy, raw: seq<Topic>, members: seq<Topic>, p: Topic)
    requires t.maxTopics >= 1 && Distinct(members) && InOrder(t, raw, members)
    requires |members| + (if p in members then 0 else 1) > t.maxTopics
    ensures CutInOrder(t, raw, members, Some(p), Capped(t, members, Some(p)))
  {
    var all := if p !in members then [p] + members else members;
    var others, count := Without(members, p), t.maxTopics - 1;
    WithoutIsExact(members, p);
    WithoutKeepsOrder(t, raw, members, p);
    LengthWithout(members, p);
    if p !in members {
      assert all[1..] == members;
    }
    assert Without(all, p) == others;
    assert Capped(t, members, Some(p)) == [p] + others[..count];
    CutOthers(t, raw, members, others, count, p);
  }

  /** The primary and the first `count` of the others. */
  lemma CutOthers(t: Taxonomy, raw: seq<Topic>, members: seq<Topic>, others: seq<Topic>, count: nat, p: Topic)
    requires InOrder(t, raw, others) && Distinct(others) && count < |others| && count + 1 == t.maxTopics
    requires forall x :: x in others <==> x in members && x != p
    ensures CutInOrder(t, raw, members, Some(p), [p] + others[..count])
  {
    var head := others[..count];
    var r := [p] + head;
    assert forall x :: x in r <==> x == p || x in head;
    forall x, y | x in r && x != p && y in members && y !in r
      ensures |r| == t.maxTopics && Before(t, raw, x, y)
    {
      CappedOthers(t, raw, others, count, x, y);
    }
    OthersInOrder(t, raw, others, count, p);
    NotTaken(others, count);
    assert others[count] in others && others[count] in members && others[count] !in r;
  }

  /** The first `count` of the others, behind the primary, are in order. */
  lemma OthersInOrder(t: Taxonomy, raw: seq<Topic>, others: seq<Topic>, count: nat, p: Topic)
    requires InOrder(t, raw, others) && count <= |others|
    ensures var r := [p] + others[..count];
            forall i, j | 0 <= i < j < |r| && p != r[i] && p != r[j] :: Before(t, raw, r[i], r[j])
  {
    var r := [p] + others[..count];
    assert forall i | 1 <= i < |r| :: r[i] == others[i - 1];
  }

  lemma NotTaken(others: seq<Topic>, count: nat)
    requires Distinct(others) && count < |others|
    ensures others[count] !in others[..count]
  {
  }

  lemma CappedOthers(t: Taxonomy, raw: seq<Topic>, others: seq<Topic>, count: nat, one: Topic, other: Topic)
    requires InOrder(t, raw, others) && count < |others|
    requires one in others[..count] && other in others && other !in others[..count]
    ensures Before(t, raw, one, other)
  {
    assert forall k | 0 <= k < count :: others[..count][k] == others[k] && others[k] in others[..count];
    var i :| 0 <= i < count && others[i] == one;
    var j :| 0 <= j < |others| && others[j] == other;
    assert i < j;
  }

  /** Which topics a selection has and in what order, said in the list and the answer alone. `p` is the
      name the answered primary stands for, if it stands for one. */
  lemma FirstNamedSurvive(t: Taxonomy, raw: seq<Topic>, rawPrimary: Topic, p: Option<Topic>, one: Topic, other: Topic)
    requires t.maxTopics >= 1 && Filtered(t, raw, rawPrimary).Some?
    requires p.Some? ==> rawPrimary != "" && Names(t, rawPrimary, p.value)
    requires p.None? ==> rawPrimary == "" || forall n <- t.names :: t.fold(n) != t.fold(rawPrimary)
    ensures var s := Filtered(t, raw, rawPrimary).value;
            && (one in s.topics && p != Some(one) && Named(t, raw, other) && other !in s.topics ==>
                  |s.topics| == t.maxTopics && NamedBefore(t, raw, one, other))
            && (forall i, j | 0 <= i < j < |s.topics| && p != Some(s.topics[i]) && p != Some(s.topics[j]) ::
                  NamedBefore(t, raw, s.topics[i], s.topics[j]))
            && (p.Some? && Named(t, raw, other) && other !in s.topics ==> s.topics[0] == p.value)
            && (p.Some? && !Named(t, raw, p.value) ==> s.topics[0] == p.value)
            && (p.Some? && Named(t, raw, p.value) && (forall name :: Named(t, raw, name) ==> name in s.topics) ==>
                  forall i, j | 0 <= i < j < |s.topics| :: NamedBefore(t, raw, s.topics[i], s.topics[j]))
            && (p.None? ==> s.primary == s.topics[0])
            && (p.Some? ==> s.primary == p.value)
  {
    var members, s := Members(t, raw), Filtered(t, raw, rawPrimary).value;
    SelectionIsSound(t, raw, rawPrimary);
    MembersAreCanonical(t, raw);
    MembersAreInOrder(t, raw);
    CanonicalIsTheName(t, rawPrimary, p.GetOr(""));
    assert PrimaryOf(t, rawPrimary) == p;
    CappingKeepsTheFirst(t, raw, members, p);
    NamedIsMember(t, raw, other);
    NamedIsMember(t, raw, p.GetOr(""));
    BeforeIsNamedBefore(t, raw, one, other);
    forall i, j | 0 <= i < j < |s.topics| && p != Some(s.topics[i]) && p != Some(s.topics[j])
      ensures NamedBefore(t, raw, s.topics[i], s.topics[j])
    {
      BeforeIsNamedBefore(t, raw, s.topics[i], s.topics[j]);
    }
    if p.Some? && Named(t, raw, p.value) && forall name :: Named(t, raw, name) ==> name in s.topics {
      forall x <- members
        ensures x in s.topics
      {
        NamedIsMember(t, raw, x);
      }
      forall i, j | 0 <= i < j < |s.topics|
        ensures NamedBefore(t, raw, s.topics[i], s.topics[j])
      {
        BeforeIsNamedBefore(t, raw, s.topics[i], s.topics[j]);
      }
    }
  }

  lemma NamedIsMember(t: Taxonomy, raw: seq<Topic>, name: Topic)
    ensures Named(t, raw, name) <==> name in Members(t, raw)
  {
    MembersAreCanonical(t, raw);
    forall r <- raw
      ensures Canonical(t, r) == Some(name) <==> Names(t, r, name)
    {
      CanonicalIsTheName(t, r, name);
    }
  }

  // ---------------------------------------------------------------------------------------------
  // The code
  // ---------------------------------------------------------------------------------------------

  /** `_filter_bill_topics`. An absent list or primary is the empty one. */
  method FilterBillTopics(t: Taxonomy, raw: seq<Topic>, rawPrimary: Topic) returns (r: Option<Selection>)
    requires t.maxTopics >= 1
    ensures r == Filtered(t, raw, rawPrimary)
  {
    var byFold: map<string, Topic> := map[];
    for i := 0 to |t.names|
      invariant byFold == ByFold(t.names[..i], t.fold)
    {
      byFold := byFold[t.fold(t.names[i]) := t.names[i]];
      assert t.names[..i + 1][..i] == t.names[..i];
    }
    assert t.names[..|t.names|] == t.names;
    var topics: seq<Topic> := [];
    var seen: set<Topic> := {};
    for i := 0 to |raw|
      invariant topics == Members(t, raw[..i])
      invariant forall topic :: topic in seen <==> topic in topics
    {
      assert raw[..i + 1][..i] == raw[..i];
      var key := t.fold(raw[i]);
      if key in byFold && byFold[key] !in seen {
        seen := seen + {byFold[key]};
        topics := topics + [byFold[key]];
      }
    }
    assert raw[..|raw|] == raw;
    MembersAreCanonical(t, raw);
    r := SelectTopics(t, byFold, topics, rawPrimary);
  }

  method SelectTopics(t: Taxonomy, byFold: map<string, Topic>, members: seq<Topic>, rawPrimary: Topic) returns (r: Option<Selection>)
    requires t.maxTopics >= 1 && byFold == ByFold(t.names, t.fold) && Distinct(members)
    ensures var topics := Capped(t, members, PrimaryOf(t, rawPrimary));
            r == if topics == [] then None else Some(Selection(PrimaryOf(t, rawPrimary).GetOr(topics[0]), topics))
  {
    var topics := members;
    var primary: Option<Topic> := None;
    if rawPrimary != "" && t.fold(rawPrimary) in byFold {
      primary := Some(byFold[t.fold(rawPrimary)]);
    }
    CappingKeeps(t, members, primary);
    if primary.Some? && primary.value !in topics {
      topics := [primary.value] + topics;
    }
    if |topics| > t.maxTopics {
      if primary.Some? {
        var others := OthersOf(topics, primary.value);
        topics := [primary.value] + Take(others, t.maxTopics - 1);
      } else {
        topics := topics[..t.maxTopics];
      }
    }
    if primary == None && rawPrimary != "" && topics != [] {
      primary := Some(topics[0]);
    }
    if topics == [] {
      return None;
    }
    r := Some(Selection(primary.GetOr(topics[0]), topics));
  }

  method OthersOf(topics: seq<Topic>, primary: Topic) returns (others: seq<Topic>)
    ensures others == Without(topics, primary)
  {
    others := [];
    for i := 0 to |topics|
      invariant others == Without(topics[..i], primary)
    {
      assert topics[..i + 1] == topics[..i] + [topics[i]];
      WithoutOneMore(topics[..i], topics[i], primary);
      if topics[i] != primary {
        others := others + [topics[i]];
      }
    }
    assert topics[..|topics|] == topics;
  }

  lemma {:induction false} WithoutOneMore(topics: seq<Topic>, last: Topic, topic: Topic)
    ensures Without(topics + [last], topic) == Without(topics, topic) + if last == topic then [] else [last]
  {
    if topics == [] {
      assert topics + [last] == [last];
    } else {
      WithoutOneMore(topics[1..], last, topic);
      assert (topics + [last])[1..] == topics[1..] + [last];
    }
  }
}
