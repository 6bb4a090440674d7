module Wrappers {
  datatype Option<+T> = None | Some(value: T) {
    function GetOr(default: T): T {
      match this
      case Some(v) => v
      case None => default
    }
  }
}

/** What the embedding path keeps in step (`pipelines/knowledge_base_embedding.py`): the versions
    api-v3 returns for a bill, the vectors of its documents, and the Redis record of both. */
module KnowledgeBase {
  import opened Wrappers

  type Text = string
  type Content = string
  type ArchiveId = string
  type Hash = string
  type Stamp = string

  // ---------------------------------------------------------------------------------------------
  // The source: one bill's versions
  // ---------------------------------------------------------------------------------------------

  /** A version as api-v3 returns it. `classified` is false for the unknown stage. */
  datatype Version = Version(
    archiveId: Option<ArchiveId>, links: seq<Text>, archivedRawText: Text,
    classified: bool, ordinal: Option<int>, updatedAt: Option<Stamp>)

  /** The first link with text, else the archived raw text; "" when nothing is archived yet. */
  function VersionText(v: Version): Text {
    LinkText(v.links, v.archivedRawText)
  }

  function LinkText(links: seq<Text>, otherwise: Text): Text {
    if links == [] then otherwise
    else if links[0] != "" then links[0]
    else LinkText(links[1..], otherwise)
  }

  datatype Scope = AllText | CurrentText | NoText

  /** The highest ordinal among classified versions, none when no classified version has one. */
  function CurrentOrdinal(versions: seq<Version>): Option<int> {
    if versions == [] then None
    else
      var rest := CurrentOrdinal(versions[1..]);
      var v := versions[0];
      if !v.classified || v.ordinal.None? then rest
      else if rest.None? || rest.value < v.ordinal.value then v.ordinal
      else rest
  }

  predicate Wanted(scope: Scope, versions: seq<Version>, v: Version) {
    match scope
    case AllText => true
    case CurrentText => v.classified && v.ordinal == CurrentOrdinal(versions)
    case NoText => false
  }

  /** What to embed of a version, read off the version: its first link that is not empty or, when all are
      empty, the archived raw text. */
  ghost predicate IsText(v: Version, t: Text) {
    && t != ""
    && if exists k :: 0 <= k < |v.links| && v.links[k] != ""
       then exists k :: 0 <= k < |v.links| && v.links[k] == t && forall j | 0 <= j < k :: v.links[j] == ""
       else t == v.archivedRawText
  }

  /** Nothing is archived for the version yet. */
  predicate HasNoText(v: Version) {
    v.archivedRawText == "" && forall k :: 0 <= k < |v.links| ==> v.links[k] == ""
  }

  lemma TextIsTheFirst(v: Version, t: Text)
    ensures t != "" ==> (IsText(v, t) <==> VersionText(v) == t)
    ensures HasNoText(v) <==> VersionText(v) == ""
  {
    LinkIsTheFirst(v.links, v.archivedRawText);
  }

  lemma {:induction false} LinkIsTheFirst(links: seq<Text>, otherwise: Text)
    ensures var text := LinkText(links, otherwise);
            if forall k :: 0 <= k < |links| ==> links[k] == "" then text == otherwise
            else text != "" && exists k :: 0 <= k < |links| && links[k] == text && forall j | 0 <= j < k :: links[j] == ""
  {
    if links != [] && links[0] == "" {
      LinkIsTheFirst(links[1..], otherwise);
      assert forall k | 0 < k < |links| :: links[k] == links[1..][k - 1];
      if k :| 0 <= k < |links| - 1 && links[1..][k] != "" {
        assert links[k + 1] != "";
        var f :| 0 <= f < |links| - 1 && links[1..][f] == LinkText(links, otherwise) && forall j | 0 <= j < f :: links[1..][j] == "";
        assert links[f + 1] == LinkText(links, otherwise) && forall j | 0 <= j < f + 1 :: links[j] == "";
      }
    }
  }

  /** What a scope covers, read off the versions: for the current text, a classified version whose ordinal
      no other classified one exceeds, or that has none when none of them has. */
  ghost predicate Covered(scope: Scope, versions: seq<Version>, v: Version) {
    match scope
    case AllText => true
    case NoText => false
    case CurrentText =>
      && v.classified
      && forall u <- versions :: u.classified && u.ordinal.Some? ==> v.ordinal.Some? && u.ordinal.value <= v.ordinal.value
  }

  lemma WantedIsCovered(scope: Scope, versions: seq<Version>, v: Version)
    requires v in versions
    ensures Wanted(scope, versions, v) <==> Covered(scope, versions, v)
  {
    CurrentIsTheHighest(versions);
  }

  lemma {:induction false} CurrentIsTheHighest(versions: seq<Version>)
    ensures match CurrentOrdinal(versions)
            case None => forall u <- versions :: u.classified ==> u.ordinal.None?
            case Some(o) => (exists u <- versions :: u.classified && u.ordinal == Some(o))
                            && forall u <- versions :: u.classified && u.ordinal.Some? ==> u.ordinal.value <= o
  {
    if versions != [] {
      CurrentIsTheHighest(versions[1..]);
      assert versions == [versions[0]] + versions[1..];
      assert forall u <- versions :: u == versions[0] || u in versions[1..];
    }
  }

  function ListedIds(versions: seq<Version>): set<ArchiveId> {
    set v <- versions | v.archiveId.Some? :: v.archiveId.value
  }

  /** A version `embed_bill` can write: it has text and an archived document id. */
  predicate Embeddable(v: Version) {
    VersionText(v) != "" && v.archiveId.Some?
  }

  // ---------------------------------------------------------------------------------------------
  // The vectors of one bill
  // ---------------------------------------------------------------------------------------------

  /** Chunk `n` of the text document of one archived row. */
  datatype ChunkKey = ChunkKey(doc: ArchiveId, n: nat)

  type Vectors = map<ChunkKey, Content>

  /** The chunk numbers `delete_surplus_chunks` deletes: none when nothing was recorded, when the
      recorded count is implausibly large, or when the document did not shrink. */
  function SurplusIds(oldCount: nat, newCount: nat): set<nat> {
    if oldCount == 0 || oldCount > newCount * 4 || oldCount <= newCount then {}
    else Range(newCount, oldCount)
  }

  /** Python's `range(lo, hi)` as a set. */
  function Range(lo: nat, hi: nat): (r: set<nat>)
    ensures forall i :: i in r <==> lo <= i < hi
    decreases hi
  {
    if hi <= lo then {} else Range(lo, hi - 1) + {hi - 1}
  }

  // ---------------------------------------------------------------------------------------------
  // The record
  // ---------------------------------------------------------------------------------------------

  const CACHE_SCHEMA := 2

  /** One document's fields; a field that was never written is absent. */
  datatype Entry = Entry(textHash: Option<Hash>, chunks: Option<nat>, stamp: Option<Stamp>)

  const NO_ENTRY := Entry(None, None, None)

  type Documents = map<ArchiveId, Entry>

  datatype Record = Record(schema: int, documents: Documents)

  /** The entries a reader uses: those of a record with this path's schema. */
  function Visible(stored: Option<Record>): Documents {
    if stored.Some? && stored.value.schema == CACHE_SCHEMA then stored.value.documents else map[]
  }

  function EntryOf(docs: Documents, a: ArchiveId): Entry {
    if a in docs then docs[a] else NO_ENTRY
  }

  function Count(e: Entry): nat {
    e.chunks.GetOr(0)
  }

  /** `dict.update`: the fields of `patch` that are set replace those of `e`. */
  function Patched(e: Entry, patch: Entry): Entry {
    Entry(if patch.textHash.Some? then patch.textHash else e.textHash,
          if patch.chunks.Some? then patch.chunks else e.chunks,
          if patch.stamp.Some? then patch.stamp else e.stamp)
  }

  function SetFields(docs: Documents, a: ArchiveId, patch: Entry): Documents {
    docs[a := Patched(EntryOf(docs, a), patch)]
  }

  function PatchedAll(docs: Documents, updates: Documents): Documents {
    map a | a in docs.Keys + updates.Keys ::
      if a in updates then Patched(EntryOf(docs, a), updates[a]) else docs[a]
  }

  lemma SettingThenPatching(base: Documents, updates: Documents, a: ArchiveId, fields: Entry)
    ensures PatchedAll(base, SetFields(updates, a, fields)) == SetFields(PatchedAll(base, updates), a, fields)
  {
  }

  /** What `embed_bill` writes back: its own fields on top of a fresh read, minus the documents whose
      vectors it deleted, unless another writer changed their entry meanwhile. */
  function Merged(latest: Documents, updates: Documents, removed: Documents): Documents {
    var patched := PatchedAll(latest, updates);
    map a | a in patched && !(a in removed && patched[a] == removed[a]) :: patched[a]
  }

  /** What a merge makes of each document's entry, given what another writer left meanwhile: an entry this
      call neither set nor deleted is the other writer's, and so is every field it did not set; a deleted
      document goes only if its entry is still the one that was deleted. */
  lemma MergeKeepsTheOthers(latest: Documents, updates: Documents, removed: Documents, a: ArchiveId)
    ensures var merged := Merged(latest, updates, removed);
            && (a !in updates && a !in removed ==> (a in merged <==> a in latest) && (a in latest ==> a in merged && merged[a] == latest[a]))
            && (a !in updates && a in removed && a in latest ==>
                  if latest[a] == removed[a] then a !in merged else a in merged && merged[a] == latest[a])
            && (a !in latest && a !in updates ==> a !in merged)
            && (a in updates && a !in removed ==>
                  a in merged
                  && (updates[a].textHash.Some? ==> merged[a].textHash == updates[a].textHash)
                  && (updates[a].chunks.Some? ==> merged[a].chunks == updates[a].chunks)
                  && (updates[a].stamp.Some? ==> merged[a].stamp == updates[a].stamp)
                  && (a in latest && updates[a].textHash.None? ==> merged[a].textHash == latest[a].textHash)
                  && (a in latest && updates[a].chunks.None? ==> merged[a].chunks == latest[a].chunks)
                  && (a in latest && updates[a].stamp.None? ==> merged[a].stamp == latest[a].stamp))
  {
    var patched := PatchedAll(latest, updates);
    assert a in patched <==> a in latest || a in updates;
    if a in updates {
      assert patched[a] == Patched(EntryOf(latest, a), updates[a]);
    }
  }

  /** The stamp `embed_bill` still has to record for a version, if any: only for a document whose
      recorded text is the version's text. */
  predicate NeedsStamp(docs: Documents, a: ArchiveId, h: Hash, updatedAt: Option<Stamp>) {
    && updatedAt.Some? && updatedAt.value != ""
    && EntryOf(docs, a).textHash == Some(h)
    && EntryOf(docs, a).stamp != updatedAt
  }
}
