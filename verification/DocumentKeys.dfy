/** The vector ids of the knowledge-base index (`pipelines/knowledge_base_embedding.py`,
    `ingestion/pipeline.py`): `<kind>:<bill>:<archived document>-chunk-<n>`. */
module DocumentKeys {

  /** The two kinds of document one archived row can have. */
  datatype Kind = Text | Diff

  function Label(kind: Kind): string {
    match kind
    case Text => "bill-text"
    case Diff => "bill-version-diff"
  }

  function DocumentKey(kind: Kind, bill: string, archiveId: string): string {
    Label(kind) + ":" + bill + ":" + archiveId
  }

  function Digit(d: nat): char
    requires d < 10
  {
    "0123456789"[d]
  }

  function Decimal(n: nat): (s: string)
    ensures s != ""
    ensures '-' !in s
  {
    if n < 10 then [Digit(n)] else Decimal(n / 10) + [Digit(n % 10)]
  }

  function ChunkId(kind: Kind, bill: string, archiveId: string, n: nat): string {
    DocumentKey(kind, bill, archiveId) + "-chunk-" + Decimal(n)
  }

  lemma {:induction false} DecimalIsInjective(m: nat, n: nat)
    requires Decimal(m) == Decimal(n)
    ensures m == n
  {
    var s, t := Decimal(m), Decimal(n);
    assert s[|s| - 1] == Digit(m % 10) && t[|t| - 1] == Digit(n % 10);
    if m >= 10 && n >= 10 {
      assert s[..|s| - 1] == Decimal(m / 10) && t[..|t| - 1] == Decimal(n / 10);
      DecimalIsInjective(m / 10, n / 10);
    }
  }

  /** The number a string of decimal digits writes. */
  function Value(digits: string): int {
    if digits == "" then 0
    else 10 * Value(digits[..|digits| - 1]) + (digits[|digits| - 1] as int - '0' as int)
  }

  /** The number of a chunk is written in decimal, without leading zeros. */
  lemma {:induction false} DecimalReadsBack(n: nat)
    ensures Value(Decimal(n)) == n
    ensures forall c <- Decimal(n) :: '0' <= c <= '9'
    ensures n > 0 ==> Decimal(n)[0] != '0'
  {
    DigitsReadBack(n % 10);
    if n < 10 {
      assert Decimal(n)[..0] == "";
    } else {
      DecimalReadsBack(n / 10);
      assert Decimal(n)[..|Decimal(n)| - 1] == Decimal(n / 10);
    }
  }

  lemma DigitsReadBack(d: nat)
    requires d < 10
    ensures Digit(d) as int == '0' as int + d && '0' <= Digit(d) <= '9'
  {
    assert d == 0 || d == 1 || d == 2 || d == 3 || d == 4 || d == 5 || d == 6 || d == 7 || d == 8 || d == 9;
  }

  /** How an id reads. */
  lemma ChunkIdReads(bill: string, archiveId: string, n: nat)
    ensures ChunkId(Text, bill, archiveId, n) == "bill-text:" + (bill + ":" + archiveId + "-chunk-" + Decimal(n))
    ensures ChunkId(Diff, bill, archiveId, n) == "bill-version-diff:" + (bill + ":" + archiveId + "-chunk-" + Decimal(n))
  {
    assert "bill-text" + ":" == "bill-text:" && "bill-version-diff" + ":" == "bill-version-diff:";
    assert DocumentKey(Text, bill, archiveId) == "bill-text:" + (bill + ":" + archiveId);
    assert DocumentKey(Diff, bill, archiveId) == "bill-version-diff:" + (bill + ":" + archiveId);
  }

  /** A separator that neither head holds splits a string in one way. */
  lemma SplitAtFirst(head: string, tail: string, head': string, tail': string, separator: char)
    requires separator !in head && separator !in head'
    requires head + [separator] + tail == head' + [separator] + tail'
    ensures head == head' && tail == tail'
  {
    var whole, whole' := head + [separator] + tail, head' + [separator] + tail';
    assert whole[|head|] == separator && whole'[|head'|] == separator;
    assert forall i :: 0 <= i < |head| ==> whole[i] == head[i] && head[i] != separator;
    assert forall i :: 0 <= i < |head'| ==> whole'[i] == head'[i] && head'[i] != separator;
    assert |head| == |head'|;
    assert head == whole[..|head|] && head' == whole'[..|head'|];
    assert tail == whole[|head| + 1..] && tail' == whole'[|head'| + 1..];
  }

  lemma SplitAtLast(head: string, tail: string, head': string, tail': string, separator: char)
    requires separator !in tail && separator !in tail'
    requires head + [separator] + tail == head' + [separator] + tail'
    ensures head == head' && tail == tail'
  {
    var whole, whole' := head + [separator] + tail, head' + [separator] + tail';
    assert whole[|head|] == separator && whole'[|head'|] == separator;
    assert forall i :: |head| < i < |whole| ==> whole[i] == tail[i - |head| - 1] && whole[i] != separator;
    assert forall i :: |head'| < i < |whole'| ==> whole'[i] == tail'[i - |head'| - 1] && whole'[i] != separator;
    assert |head| == |head'|;
    assert head == whole[..|head|] && head' == whole'[..|head'|];
    assert tail == whole[|head| + 1..] && tail' == whole'[|head'| + 1..];
  }

  /** Which vectors share an id, whatever bills and archived ids are called: the same chunk of a document
      of the same kind, whose bill and archived ids read the same once joined by a colon. */
  lemma ChunkIdsCollideExactly(kind: Kind, bill: string, archiveId: string, n: nat,
                               kind': Kind, bill': string, archiveId': string, n': nat)
    ensures ChunkId(kind, bill, archiveId, n) == ChunkId(kind', bill', archiveId', n')
            <==> kind == kind' && n == n' && bill + ":" + archiveId == bill' + ":" + archiveId'
  {
    KeysCollideExactly(kind, bill, archiveId, kind', bill', archiveId');
    if ChunkId(kind, bill, archiveId, n) == ChunkId(kind', bill', archiveId', n') {
      SameKeyAndNumber(DocumentKey(kind, bill, archiveId), n, DocumentKey(kind', bill', archiveId'), n');
    }
  }

  /** The chunk number is what follows the last dash. */
  lemma SameKeyAndNumber(key: string, n: nat, key': string, n': nat)
    requires key + "-chunk-" + Decimal(n) == key' + "-chunk-" + Decimal(n')
    ensures key == key' && n == n'
  {
    assert key + "-chunk-" + Decimal(n) == (key + "-chunk") + ['-'] + Decimal(n);
    assert key' + "-chunk-" + Decimal(n') == (key' + "-chunk") + ['-'] + Decimal(n');
    SplitAtLast(key + "-chunk", Decimal(n), key' + "-chunk", Decimal(n'), '-');
    DecimalIsInjective(n, n');
    assert key == (key + "-chunk")[..|key|] && key' == (key' + "-chunk")[..|key'|];
  }

  lemma KeysCollideExactly(kind: Kind, bill: string, archiveId: string, kind': Kind, bill': string, archiveId': string)
    ensures DocumentKey(kind, bill, archiveId) == DocumentKey(kind', bill', archiveId')
            <==> kind == kind' && bill + ":" + archiveId == bill' + ":" + archiveId'
  {
    KeyIsLabelAndRest(kind, bill, archiveId);
    KeyIsLabelAndRest(kind', bill', archiveId');
    if DocumentKey(kind, bill, archiveId) == DocumentKey(kind', bill', archiveId') {
      SplitAtFirst(Label(kind), bill + ":" + archiveId, Label(kind'), bill' + ":" + archiveId', ':');
      LabelsDiffer(kind, kind');
    }
  }

  lemma KeyIsLabelAndRest(kind: Kind, bill: string, archiveId: string)
    ensures DocumentKey(kind, bill, archiveId) == Label(kind) + [':'] + (bill + ":" + archiveId)
    ensures ':' !in Label(kind)
  {
  }

  lemma LabelsDiffer(kind: Kind, kind': Kind)
    ensures Label(kind) == Label(kind') ==> kind == kind'
  {
    assert |Label(Text)| != |Label(Diff)|;
  }

  /** Two vectors share an id only when they are the same chunk of the same document of the same
      bill, if bare bill ids hold no colon; archived ids may be anything. */
  lemma ChunkIdsNeverCollide(kind: Kind, bill: string, archiveId: string, n: nat,
                             kind': Kind, bill': string, archiveId': string, n': nat)
    requires ':' !in bill && ':' !in bill'
    requires ChunkId(kind, bill, archiveId, n) == ChunkId(kind', bill', archiveId', n')
    ensures kind == kind' && bill == bill' && archiveId == archiveId' && n == n'
  {
    ChunkIdsCollideExactly(kind, bill, archiveId, n, kind', bill', archiveId', n');
    assert bill + ":" + archiveId == bill + [':'] + archiveId && bill' + ":" + archiveId' == bill' + [':'] + archiveId';
    SplitAtFirst(bill, archiveId, bill', archiveId', ':');
  }

  /** Some document of the one bill and some document of the other claim one vector. */
  ghost predicate CanShareAnId(bill: string, bill': string) {
    exists kind: Kind, archiveId: string, n: nat, kind': Kind, archiveId': string, n': nat ::
      ChunkId(kind, bill, archiveId, n) == ChunkId(kind', bill', archiveId', n')
  }

  /** With colons in bill ids two bills can collide exactly when one id, followed by a colon, begins the
      other. */
  lemma BillsCanShareAnIdExactly(bill: string, bill': string)
    requires bill != bill'
    ensures CanShareAnId(bill, bill') <==> bill + ":" <= bill' || bill' + ":" <= bill
  {
    if CanShareAnId(bill, bill') {
      var kind: Kind, archiveId: string, n: nat, kind': Kind, archiveId': string, n': nat :|
        ChunkId(kind, bill, archiveId, n) == ChunkId(kind', bill', archiveId', n');
      ChunkIdsCollideExactly(kind, bill, archiveId, n, kind', bill', archiveId', n');
      OneBeginsTheOther(bill, archiveId, bill', archiveId');
    }
    if bill + ":" <= bill' {
      Shares(bill, bill');
    }
    if bill' + ":" <= bill {
      Shares(bill', bill);
    }
  }

  lemma OneBeginsTheOther(bill: string, archiveId: string, bill': string, archiveId': string)
    requires bill != bill' && bill + ":" + archiveId == bill' + ":" + archiveId'
    ensures bill + ":" <= bill' || bill' + ":" <= bill
  {
    var whole := bill + ":" + archiveId;
    assert whole[..|bill|] == bill && whole[..|bill'|] == bill';
    assert whole[..|bill| + 1] == bill + ":" && whole[..|bill'| + 1] == bill' + ":";
    if |bill| < |bill'| {
      assert bill'[..|bill| + 1] == whole[..|bill| + 1];
    } else if |bill'| < |bill| {
      assert bill[..|bill'| + 1] == whole[..|bill'| + 1];
    }
  }

  lemma Shares(bill: string, longer: string)
    requires bill + ":" <= longer
    ensures CanShareAnId(bill, longer) && CanShareAnId(longer, bill)
  {
    var tail := longer[|bill| + 1..] + ":";
    assert bill + ":" + tail == longer + ":" + "";
    ChunkIdsCollideExactly(Text, bill, tail, 0, Text, longer, "", 0);
  }
}
