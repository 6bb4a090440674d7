/** The text chunker (`ingestion/chunking.py`): cleaning, paragraph splitting and the token window. */
module Chunking {
  import opened Wrappers

  type Token = int

  /** The tokenizer is a parameter: nothing is assumed of it but what a theorem asks for. */
  datatype Encoding = Encoding(encode: string -> seq<Token>, decode: seq<Token> -> string) {
    /** Decoding undoes encoding, and no tokens decode to no text. */
    ghost predicate RoundTrips() {
      && (forall text: string :: decode(encode(text)) == text)
      && decode([]) == ""
    }
  }

  /** A chunk without its metadata, which is copied through untouched. */
  datatype Chunk = Chunk(content: string, index: nat, tokenCount: nat, startChar: nat, endChar: nat)

  // ---------------------------------------------------------------------------------------------
  // Cleaning
  // ---------------------------------------------------------------------------------------------

  /** The characters Python's `\s` and `str.strip` agree on. */
  predicate IsSpace(c: char) {
    || '\U{0009}' <= c <= '\U{000D}'
    || '\U{001C}' <= c <= '\U{0020}'
    || c == '\U{0085}' || c == '\U{00A0}' || c == '\U{1680}'
    || '\U{2000}' <= c <= '\U{200A}'
    || c == '\U{2028}' || c == '\U{2029}' || c == '\U{202F}' || c == '\U{205F}' || c == '\U{3000}'
  }

  function SpaceRun(text: string): (n: nat)
    ensures n <= |text|
    ensures forall i :: 0 <= i < n ==> IsSpace(text[i])
    ensures n < |text| ==> !IsSpace(text[n])
  {
    if text != "" && IsSpace(text[0]) then 1 + SpaceRun(text[1..]) else 0
  }

  function NewlineRun(text: string): (n: nat)
    ensures n <= |text|
    ensures text != "" && text[0] == '\n' ==> 0 < n
    ensures n > 0 ==> '\n' in text
  {
    if text != "" && text[0] == '\n' then 1 + NewlineRun(text[1..]) else 0
  }

  /** `re.sub(r"\s+", " ", text)` */
  function CollapseSpaces(text: string): string
    decreases |text|
  {
    if text == "" then ""
    else if IsSpace(text[0]) then " " + CollapseSpaces(text[SpaceRun(text)..])
    else [text[0]] + CollapseSpaces(text[1..])
  }

  /** `re.sub(r"\n{3,}", "\n\n", text)` */
  function LimitNewlines(text: string): string
    decreases |text|
  {
    if text == "" then ""
    else
      var run := NewlineRun(text);
      if run >= 3 then "\n\n" + LimitNewlines(text[run..])
      else if run > 0 then text[..run] + LimitNewlines(text[run..])
      else [text[0]] + LimitNewlines(text[1..])
  }

  function StripLeft(text: string): string {
    text[SpaceRun(text)..]
  }

  function StripRight(text: string): (r: string)
    ensures |r| <= |text| && r == text[..|r|]
    ensures forall i :: |r| <= i < |text| ==> IsSpace(text[i])
    ensures r != "" ==> !IsSpace(r[|r| - 1])
  {
    if text != "" && IsSpace(text[|text| - 1]) then StripRight(text[..|text| - 1]) else text
  }

  function Strip(text: string): string {
    StripRight(StripLeft(text))
  }

  predicate IsBlank(text: string) {
    forall i :: 0 <= i < |text| ==> IsSpace(text[i])
  }

  function Clean(text: string): string {
    Strip(LimitNewlines(CollapseSpaces(text)))
  }

  lemma StripFixesStripped(text: string)
    ensures Strip(Strip(text)) == Strip(text)
    ensures Strip(text) == "" <==> IsBlank(text)
  {
    var left := StripLeft(text);
    var s := Strip(text);
    if s != "" {
      assert s[0] == left[0];
      assert !IsBlank(text) by { assert !IsSpace(text[SpaceRun(text)]); }
    } else {
      assert left == "";
    }
  }

  /** A collapsed text has one kind of white space, the blank, and is blank only if the text was. */
  lemma {:induction false} CollapsedTextHasNoNewline(text: string)
    ensures OnlyBlanks(CollapseSpaces(text))
    ensures IsBlank(CollapseSpaces(text)) <==> IsBlank(text)
    decreases |text|
  {
    if text != "" {
      var run := if IsSpace(text[0]) then SpaceRun(text) else 1;
      var head := if IsSpace(text[0]) then " " else [text[0]];
      CollapsedTextHasNoNewline(text[run..]);
      assert CollapseSpaces(text) == head + CollapseSpaces(text[run..]);
      assert IsBlank(head) <==> IsBlank(text[..run]) by {
        if IsSpace(text[0]) {
          assert forall i :: 0 <= i < run ==> text[..run][i] == text[i];
        } else {
          assert text[..run] == head;
        }
      }
      assert text == text[..run] + text[run..];
      BlankTogether(head, CollapseSpaces(text[run..]));
      BlankTogether(text[..run], text[run..]);
    }
  }

  /** White space is blanks only. */
  predicate OnlyBlanks(text: string) {
    forall c <- text :: c == ' ' || !IsSpace(c)
  }

  lemma BlankTogether(head: string, tail: string)
    ensures IsBlank(head + tail) <==> IsBlank(head) && IsBlank(tail)
    ensures OnlyBlanks(head + tail) <==> OnlyBlanks(head) && OnlyBlanks(tail)
  {
    var whole := head + tail;
    assert forall i :: 0 <= i < |head| ==> head[i] == whole[i];
    assert forall i :: 0 <= i < |tail| ==> tail[i] == whole[i + |head|];
  }

  lemma {:induction false} LimitingLeavesNewlineFreeText(text: string)
    requires '\n' !in text
    ensures LimitNewlines(text) == text
    decreases |text|
  {
    if text != "" {
      assert text[0] in text;
      assert forall c :: c in text[1..] ==> c in text;
      LimitingLeavesNewlineFreeText(text[1..]);
      assert text == [text[0]] + text[1..];
    }
  }

  /** Cleaning removes every newline, strips both ends, and leaves nothing only of a blank text. */
  lemma CleanTextIsOneLine(text: string)
    ensures '\n' !in Clean(text)
    ensures Strip(Clean(text)) == Clean(text)
    ensures Clean(text) == "" <==> IsBlank(text)
  {
    CollapsedTextHasNoNewline(text);
    var c := CollapseSpaces(text);
    assert '\n' !in c;
    LimitingLeavesNewlineFreeText(c);
    StripFixesStripped(c);
    assert forall x :: x in Strip(c) ==> x in StripLeft(c);
    assert forall x :: x in StripLeft(c) ==> x in c;
  }

  /** The words of a text: its longest stretches without white space, in order. */
  function Words(text: string): seq<string> {
    if text == "" then []
    else if IsSpace(text[0]) then Words(text[1..])
    else if |text| == 1 || IsSpace(text[1]) then [[text[0]]] + Words(text[1..])
    else
      var rest := Words(text[1..]);
      if rest == [] then [[text[0]]] else [[text[0]] + rest[0]] + rest[1..]
  }

  function Spaced(words: seq<string>): string {
    if words == [] then "" else if |words| == 1 then words[0] else words[0] + " " + Spaced(words[1..])
  }

  /** A letter and two ends. */
  predicate IsWord(w: string) {
    w != "" && !IsSpace(w[0]) && !IsSpace(w[|w| - 1])
  }

  predicate AreWords(words: seq<string>) {
    forall k :: 0 <= k < |words| ==> IsWord(words[k])
  }

  lemma OneMoreWord(w: string, words: seq<string>)
    requires IsWord(w) && AreWords(words)
    ensures AreWords([w] + words)
  {
    var all := [w] + words;
    forall k | 0 <= k < |all|
      ensures IsWord(all[k])
    {
      assert k > 0 ==> all[k] == words[k - 1];
    }
  }

  lemma LongerIsWord(c: char, w: string)
    requires !IsSpace(c) && IsWord(w)
    ensures IsWord([c] + w)
  {
    var longer := [c] + w;
    assert longer[0] == c && longer[|longer| - 1] == w[|w| - 1];
  }

  /** A text that is not white space has words, and each has a first and a last letter. */
  lemma {:induction false} WordsOfText(text: string)
    ensures text != "" && !IsSpace(text[0]) ==> Words(text) != []
    ensures Words(text) == [] <==> IsBlank(text)
    ensures AreWords(Words(text))
  {
    if text != "" {
      var c, rest := text[0], text[1..];
      WordsOfText(rest);
      BlankOrNot(text);
      if !IsSpace(c) {
        if |text| == 1 || IsSpace(text[1]) || Words(rest) == [] {
          OneMoreWord([c], if |text| == 1 || IsSpace(text[1]) then Words(rest) else []);
          assert Words(rest) == [] ==> [[c]] + Words(rest) == [[c]] + [] == [[c]];
        } else {
          LongerIsWord(c, Words(rest)[0]);
          OneMoreWord([c] + Words(rest)[0], Words(rest)[1..]);
        }
      }
    }
  }

  lemma BlankOrNot(text: string)
    requires text != ""
    ensures IsBlank(text) <==> IsSpace(text[0]) && IsBlank(text[1..])
  {
    assert forall i :: 1 <= i < |text| ==> text[i] == text[1..][i - 1];
  }

  lemma {:induction false} EndsOfSpaced(words: seq<string>)
    requires words != [] && AreWords(words)
    ensures IsWord(Spaced(words))
  {
    if |words| > 1 {
      EndsOfSpaced(words[1..]);
    }
  }

  lemma {:induction false} WordsAfterSpaces(text: string, n: nat)
    requires n <= |text| && forall i :: 0 <= i < n ==> IsSpace(text[i])
    ensures Words(text) == Words(text[n..])
  {
    if n > 0 {
      WordsAfterSpaces(text[1..], n - 1);
      assert text[1..][n - 1..] == text[n..];
    }
  }

  /** A blank where the text begins with white space, and one where it ends with some after a word. */
  function Lead(text: string): string {
    if text != "" && IsSpace(text[0]) then " " else ""
  }

  function Trail(text: string, words: seq<string>): string {
    if words != [] && text != "" && IsSpace(text[|text| - 1]) then " " else ""
  }

  /** Without the white space it begins with. */
  lemma SameEnd(text: string, run: nat, words: seq<string>)
    requires run <= |text| && (words != [] ==> run < |text|) && (run < |text| ==> !IsSpace(text[run]))
    ensures Lead(text[run..]) == "" && Trail(text[run..], words) == Trail(text, words)
  {
    var rest := text[run..];
    if run < |text| {
      assert rest[0] == text[run] && rest[|rest| - 1] == text[|text| - 1];
    }
  }

  lemma {:induction false} CollapsedIsSpaced(text: string)
    ensures CollapseSpaces(text) == Lead(text) + (Spaced(Words(text)) + Trail(text, Words(text)))
    decreases |text|
  {
    if text != "" {
      var run := if IsSpace(text[0]) then SpaceRun(text) else 1;
      CollapsedIsSpaced(text[run..]);
      var spaced := Spaced(Words(text)) + Trail(text, Words(text));
      NothingBefore(spaced);
      if IsSpace(text[0]) {
        WordsAfterSpaces(text, run);
        SameEnd(text, run, Words(text));
        assert CollapseSpaces(text[run..]) == spaced;
      } else {
        FirstLetter(text);
        assert spaced == [text[0]] + CollapseSpaces(text[1..]);
      }
    }
  }

  lemma NothingBefore(text: string)
    ensures "" + text == text
  {
  }

  lemma NewWord(c: char, words: seq<string>)
    ensures Spaced([[c]] + words) == if words == [] then [c] else [c] + (" " + Spaced(words))
  {
    var all := [[c]] + words;
    assert all[1..] == words;
  }

  lemma LongerWord(c: char, words: seq<string>)
    requires words != []
    ensures Spaced([[c] + words[0]] + words[1..]) == [c] + Spaced(words)
  {
    var all := [[c] + words[0]] + words[1..];
    assert all[1..] == words[1..];
  }

  lemma Glue(c: char, lead: string, middle: string, trail: string)
    ensures [c] + (lead + middle) + trail == [c] + (lead + (middle + trail))
  {
  }

  /** What one more letter in front makes of the words, and of the end. */
  lemma FirstLetter(text: string)
    requires text != "" && !IsSpace(text[0])
    ensures Spaced(Words(text)) + Trail(text, Words(text)) == [text[0]] + (Lead(text[1..]) + (Spaced(Words(text[1..])) + Trail(text[1..], Words(text[1..]))))
  {
    var c, rest := text[0], text[1..];
    if IsBlank(rest) {
      OnlyLetter(text);
    } else {
      MoreWords(text);
      SameTrail(text);
      Glue(c, Lead(rest), Spaced(Words(rest)), Trail(rest, Words(rest)));
    }
  }

  lemma OnlyLetter(text: string)
    requires text != "" && !IsSpace(text[0]) && IsBlank(text[1..])
    ensures Spaced(Words(text)) + Trail(text, Words(text)) == [text[0]] + (Lead(text[1..]) + (Spaced(Words(text[1..])) + Trail(text[1..], Words(text[1..]))))
  {
    var c, rest := text[0], text[1..];
    WordsOfText(rest);
    assert Words(text) == [[c]] + Words(rest) by {
      assert |text| > 1 ==> text[1] == rest[0];
    }
    assert Spaced(Words(text)) == [c];
    if rest != "" {
      assert text[|text| - 1] == rest[|rest| - 1];
      assert Trail(text, Words(text)) == " " && Lead(rest) == " ";
    } else {
      assert Trail(text, Words(text)) == "" && Lead(rest) == "";
    }
    assert Trail(rest, Words(rest)) == "" && Spaced(Words(rest)) == "";
  }

  lemma MoreWords(text: string)
    requires |text| > 1 && !IsSpace(text[0]) && !IsBlank(text[1..])
    ensures Spaced(Words(text)) == [text[0]] + (Lead(text[1..]) + Spaced(Words(text[1..])))
  {
    var c, rest := text[0], text[1..];
    WordsOfText(rest);
    assert text[1] == rest[0];
    if IsSpace(rest[0]) {
      NewWord(c, Words(rest));
    } else {
      LongerWord(c, Words(rest));
      NothingBefore(Spaced(Words(rest)));
      assert Words(text) == [[c] + Words(rest)[0]] + Words(rest)[1..] && Lead(rest) == "";
    }
  }

  lemma SameTrail(text: string)
    requires |text| > 1 && !IsSpace(text[0]) && !IsBlank(text[1..])
    ensures Trail(text, Words(text)) == Trail(text[1..], Words(text[1..]))
  {
    WordsOfText(text);
    WordsOfText(text[1..]);
    assert text[|text| - 1] == text[1..][|text| - 2];
  }

  lemma StripBlankBefore(before: string, text: string)
    requires before == "" || before == " "
    requires text == "" || !IsSpace(text[0])
    ensures StripLeft(before + text) == text
  {
    if before == " " {
      assert (before + text)[1..] == text;
      assert SpaceRun(before + text) == 1 + SpaceRun(text);
    } else {
      assert before + text == text;
    }
  }

  lemma StripBlankAfter(text: string, after: string)
    requires after == "" || after == " "
    requires text == "" || !IsSpace(text[|text| - 1])
    ensures StripRight(text + after) == text
  {
    if after == " " {
      var padded := text + after;
      assert padded[|padded| - 1] == ' ' && padded[..|padded| - 1] == text;
      assert StripRight(padded) == StripRight(text);
      assert StripRight(text) == text;
    } else {
      assert text + after == text;
    }
  }

  /** Cleaning leaves the words of a text, in order, with one blank between them, and nothing else. */
  lemma CleanTextIsItsWords(text: string)
    ensures Clean(text) == Spaced(Words(text))
  {
    CleanIsStripped(text);
    CollapsedIsSpaced(text);
    WordsOfText(text);
    if Words(text) == [] {
      StripBlanks(Lead(text), "", Trail(text, Words(text)));
    } else {
      EndsOfSpaced(Words(text));
      StripBlanks(Lead(text), Spaced(Words(text)), Trail(text, Words(text)));
    }
  }

  lemma CleanIsStripped(text: string)
    ensures Clean(text) == Strip(CollapseSpaces(text))
  {
    CollapsedTextHasNoNewline(text);
    assert '\n' !in CollapseSpaces(text);
    LimitingLeavesNewlineFreeText(CollapseSpaces(text));
  }

  lemma StripBlanks(before: string, middle: string, after: string)
    requires before == "" || before == " "
    requires (after == "" || after == " ") && (middle == "" ==> after == "")
    requires middle != "" ==> IsWord(middle)
    ensures Strip(before + (middle + after)) == middle
  {
    assert middle != "" ==> (middle + after)[0] == middle[0];
    StripBlankBefore(before, middle + after);
    StripBlankAfter(middle, after);
  }

  // ---------------------------------------------------------------------------------------------
  // Paragraphs
  // ---------------------------------------------------------------------------------------------

  /** One past the last newline of a text, or 0 when it has none. */
  function PastLastNewline(text: string): (n: nat)
    ensures n <= |text|
    ensures n > 0 ==> '\n' in text
  {
    if text == "" then 0
    else if text[|text| - 1] == '\n' then |text|
    else PastLastNewline(text[..|text| - 1])
  }

  /** The length of the match of `\n\n+|\n\s*\n` at the start of `text`, 0 for no match. */
  function ParagraphBreak(text: string): (n: nat)
    ensures n <= |text|
    ensures n > 0 ==> '\n' in text
  {
    if text == "" || text[0] != '\n' then 0
    else if |text| >= 2 && text[1] == '\n' then NewlineRun(text)
    else
      var rest := text[1..];
      var last := PastLastNewline(rest[..SpaceRun(rest)]);
      if last == 0 then 0 else 1 + last
  }

  /** `re.split` on paragraph breaks; `piece` is what has been read since the last break. */
  function SplitAtBreaks(text: string, piece: string): seq<string>
    decreases |text|
  {
    if text == "" then [piece]
    else
      var n := ParagraphBreak(text);
      if n > 0 then [piece] + SplitAtBreaks(text[n..], "")
      else SplitAtBreaks(text[1..], piece + [text[0]])
  }

  function NonBlankStripped(pieces: seq<string>): seq<string> {
    if pieces == [] then []
    else if Strip(pieces[0]) != "" then [Strip(pieces[0])] + NonBlankStripped(pieces[1..])
    else NonBlankStripped(pieces[1..])
  }

  function SplitIntoParagraphs(text: string): seq<string> {
    NonBlankStripped(SplitAtBreaks(text, ""))
  }

  lemma {:induction false} NewlineFreeTextIsOnePiece(text: string, piece: string)
    requires '\n' !in text
    ensures SplitAtBreaks(text, piece) == [piece + text]
    decreases |text|
  {
    if text == "" {
      assert piece + text == piece;
    } else {
      assert forall c :: c in text[1..] ==> c in text;
      NewlineFreeTextIsOnePiece(text[1..], piece + [text[0]]);
      assert piece + text == (piece + [text[0]]) + text[1..];
    }
  }

  /** Cleaning comes first, so the paragraph splitter never sees a break: at most one paragraph. */
  lemma CleanTextIsOneParagraph(text: string)
    requires !IsBlank(text)
    ensures Clean(text) != ""
    ensures SplitIntoParagraphs(Clean(text)) == [Clean(text)]
  {
    CleanTextIsOneLine(text);
    NewlineFreeTextIsOnePiece(Clean(text), "");
    assert "" + Clean(text) == Clean(text);
    assert NonBlankStripped([Clean(text)]) == [Clean(text)] + NonBlankStripped([]);
  }

  // ---------------------------------------------------------------------------------------------
  // The token window
  // ---------------------------------------------------------------------------------------------

  function Min(a: int, b: int): int {
    if a < b then a else b
  }

  /** How far a window starts after the one before it. */
  function Stride(size: nat, overlap: nat): (stride: nat)
    requires size >= 1
    ensures 1 <= stride <= size
  {
    if overlap < size then size - overlap else 1
  }

  /** The sliding windows over a token sequence. */
  function Windows(tokens: seq<Token>, size: nat, overlap: nat): (windows: seq<seq<Token>>)
    requires size >= 1
    ensures tokens != [] <==> windows != []
    ensures forall k :: 0 <= k < |windows| ==> 1 <= |windows[k]| <= size
    ensures forall k :: 0 <= k < |windows| - 1 ==> |windows[k]| == size
    decreases |tokens|
  {
    if tokens == [] then []
    else if |tokens| <= size then [tokens]
    else [tokens[..size]] + Windows(tokens[Stride(size, overlap)..], size, overlap)
  }

  /** One turn of the window loop, from `start` to the next start. */
  lemma WindowsStep(tokens: seq<Token>, start: nat, size: nat, overlap: nat)
    requires size >= 1 && start < |tokens|
    ensures var windows := Windows(tokens[start..], size, overlap);
            && windows != []
            && windows[0] == tokens[start..Min(start + size, |tokens|)]
            && (start + size >= |tokens| ==> |windows| == 1)
            && (start + size < |tokens| ==>
                  windows[1..] == Windows(tokens[start + Stride(size, overlap)..], size, overlap))
  {
    if start + size < |tokens| {
      assert tokens[start..][Stride(size, overlap)..] == tokens[start + Stride(size, overlap)..];
    }
  }

  /** The start of window `k`, `k` strides in. */
  function Offset(k: nat, stride: nat): nat {
    if k == 0 then 0 else Offset(k - 1, stride) + stride
  }

  lemma {:induction false} OffsetIsProduct(k: nat, stride: nat)
    ensures Offset(k, stride) == k * stride
  {
    if k > 0 {
      OffsetIsProduct(k - 1, stride);
      assert k * stride == (k - 1) * stride + stride;
    }
  }

  /** `tokens[start:start + size]`, clipped at the end as a slice is. */
  function Stretch(tokens: seq<Token>, start: nat, size: nat): seq<Token> {
    tokens[Min(start, |tokens|)..Min(start + size, |tokens|)]
  }

  lemma StretchOfTail(tokens: seq<Token>, cut: nat, start: nat, size: nat)
    requires cut <= |tokens|
    ensures Stretch(tokens[cut..], start, size) == Stretch(tokens, start + cut, size)
  {
  }

  /** Window `k` is the stretch of `size` tokens that starts `k` strides in, cut off at the end. */
  lemma {:induction false} WindowIsStretch(tokens: seq<Token>, size: nat, overlap: nat, k: nat)
    requires size >= 1
    requires k < |Windows(tokens, size, overlap)|
    ensures k * Stride(size, overlap) < |tokens|
    ensures Windows(tokens, size, overlap)[k] == Stretch(tokens, k * Stride(size, overlap), size)
    decreases k
  {
    var stride := Stride(size, overlap);
    if k == 0 {
      assert |tokens| <= size ==> tokens == tokens[0..|tokens|];
    } else {
      assert |tokens| > size;
      WindowIsStretch(tokens[stride..], size, overlap, k - 1);
      assert (k - 1) * stride + stride == k * stride;
      StretchOfTail(tokens, stride, (k - 1) * stride, size);
      assert Windows(tokens, size, overlap)[k] == Windows(tokens[stride..], size, overlap)[k - 1];
    }
  }

  /** Each window with the first `shared` tokens cut off. */
  function WithoutShared(windows: seq<seq<Token>>, shared: nat): seq<Token> {
    if windows == [] then []
    else windows[0][Min(shared, |windows[0]|)..] + WithoutShared(windows[1..], shared)
  }

  /** What a reader rebuilds: the first window, then each later one without the shared tokens. */
  function Rebuilt(windows: seq<seq<Token>>, shared: nat): seq<Token> {
    if windows == [] then [] else windows[0] + WithoutShared(windows[1..], shared)
  }

  lemma {:induction false} LaterWindowsContinue(tokens: seq<Token>, size: nat, overlap: nat)
    requires size >= 1 && |tokens| > size - Stride(size, overlap)
    ensures WithoutShared(Windows(tokens, size, overlap), size - Stride(size, overlap))
            == tokens[size - Stride(size, overlap)..]
    decreases |tokens|
  {
    var stride := Stride(size, overlap);
    var shared := size - stride;
    var windows := Windows(tokens, size, overlap);
    if |tokens| <= size {
      assert windows[1..] == [];
    } else {
      LaterWindowsContinue(tokens[stride..], size, overlap);
      assert windows[1..] == Windows(tokens[stride..], size, overlap);
      assert tokens[stride..][shared..] == tokens[size..];
      assert tokens[..size][shared..] + tokens[size..] == tokens[shared..];
    }
  }

  /** Sliding-window round trip: the windows lose no token, repeat none and keep the order. Two
      neighbours share `overlap` tokens, or all but one when the overlap is not below the size. */
  lemma WindowsRebuildTokens(tokens: seq<Token>, size: nat, overlap: nat)
    requires size >= 1
    ensures Rebuilt(Windows(tokens, size, overlap), Min(overlap, size - 1)) == tokens
  {
    var stride := Stride(size, overlap);
    var windows := Windows(tokens, size, overlap);
    if |tokens| > size {
      LaterWindowsContinue(tokens[stride..], size, overlap);
      assert windows[1..] == Windows(tokens[stride..], size, overlap);
      assert tokens[stride..][size - stride..] == tokens[size..];
    }
  }

  /** The number of windows: one up to the chunk size, and above it one more for every started
      stride, which is every single token when the overlap is not below the size. */
  lemma {:induction false} WindowCount(tokens: seq<Token>, size: nat, overlap: nat)
    requires size >= 1 && |tokens| >= 1
    ensures var extra := |Windows(tokens, size, overlap)| - 1;
            if |tokens| <= size then extra == 0
            else if overlap >= size then extra == |tokens| - size
            else (extra - 1) * (size - overlap) < |tokens| - size <= extra * (size - overlap)
    decreases |tokens|
  {
    var stride := Stride(size, overlap);
    if |tokens| > size {
      WindowCount(tokens[stride..], size, overlap);
      var extra := |Windows(tokens, size, overlap)| - 1;
      assert extra * stride == (extra - 1) * stride + stride;
      assert (extra - 1) * stride == (extra - 2) * stride + stride;
    }
  }

  // ---------------------------------------------------------------------------------------------
  // The chunking service
  // ---------------------------------------------------------------------------------------------

  /** The chunks of a text under the sliding window, numbered in order. */
  function WindowChunks(e: Encoding, text: string, size: nat, overlap: nat): (chunks: seq<Chunk>)
    requires size >= 1
    ensures |chunks| == |Windows(e.encode(text), size, overlap)|
    ensures forall k {:trigger chunks[k]} :: 0 <= k < |chunks| ==>
              chunks[k] == ChunkAt(e, e.encode(text), Offset(k, Stride(size, overlap)), size, k)
  {
    var tokens := e.encode(text);
    seq(|Windows(tokens, size, overlap)|, k requires k >= 0 =>
      ChunkAt(e, tokens, Offset(k, Stride(size, overlap)), size, k))
  }

  /** The chunk cut at token `start`: its text, its token count and its character offsets. */
  function ChunkAt(e: Encoding, tokens: seq<Token>, start: nat, size: nat, k: nat): Chunk {
    Chunk(e.decode(Stretch(tokens, start, size)), k, |Stretch(tokens, start, size)|,
          |e.decode(Stretch(tokens, 0, start))|, |e.decode(Stretch(tokens, 0, start + size))|)
  }

  /** Chunk `k` is cut `k` strides in. */
  predicate CutInOrder(chunks: seq<Chunk>, e: Encoding, tokens: seq<Token>, size: nat, overlap: nat)
    requires size >= 1
  {
    forall k {:trigger chunks[k]} :: 0 <= k < |chunks| ==>
      chunks[k] == ChunkAt(e, tokens, Offset(k, Stride(size, overlap)), size, k)
  }

  lemma CutOneMore(chunks: seq<Chunk>, chunk: Chunk, e: Encoding, tokens: seq<Token>, size: nat, overlap: nat)
    requires size >= 1 && CutInOrder(chunks, e, tokens, size, overlap)
    requires chunk == ChunkAt(e, tokens, Offset(|chunks|, Stride(size, overlap)), size, |chunks|)
    ensures CutInOrder(chunks + [chunk], e, tokens, size, overlap)
  {
    var more := chunks + [chunk];
    forall k {:trigger more[k]} | 0 <= k < |more|
      ensures more[k] == ChunkAt(e, tokens, Offset(k, Stride(size, overlap)), size, k)
    {
      if k < |chunks| {
        assert more[k] == chunks[k];
      } else {
        assert k == |chunks|;
      }
    }
  }

  lemma ChunksAreWindowChunks(chunks: seq<Chunk>, e: Encoding, text: string, size: nat, overlap: nat)
    requires size >= 1
    requires |chunks| == |Windows(e.encode(text), size, overlap)|
    requires CutInOrder(chunks, e, e.encode(text), size, overlap)
    ensures chunks == WindowChunks(e, text, size, overlap)
  {
  }

  /** Chunk `k` in terms of the tokens alone: where it starts and ends, and the characters before both. */
  lemma ChunkIsCut(e: Encoding, text: string, size: nat, overlap: nat, k: nat)
    requires size >= 1 && k < |WindowChunks(e, text, size, overlap)|
    ensures var chunk, tokens := WindowChunks(e, text, size, overlap)[k], e.encode(text);
            var stride := if overlap < size then size - overlap else 1;
            var start: int := k * stride;
            var end := if start + size < |tokens| then start + size else |tokens|;
            && 0 <= start < end <= |tokens|
            && chunk == Chunk(e.decode(tokens[start..end]), k, end - start, |e.decode(tokens[..start])|, |e.decode(tokens[..end])|)
  {
    WindowIsStretch(e.encode(text), size, overlap, k);
    OffsetIsProduct(k, Stride(size, overlap));
    var tokens, start := e.encode(text), k * Stride(size, overlap);
    assert tokens[0..start] == tokens[..start];
    assert tokens[0..Min(start + size, |tokens|)] == tokens[..Min(start + size, |tokens|)];
  }

  /** The chunks are the windows: same number, each one's text decoded from its window's tokens. */
  lemma WindowChunksHoldWindows(e: Encoding, text: string, size: nat, overlap: nat, k: nat)
    requires size >= 1
    requires k < |WindowChunks(e, text, size, overlap)|
    ensures var chunk, window := WindowChunks(e, text, size, overlap)[k], Windows(e.encode(text), size, overlap)[k];
            chunk.index == k && chunk.content == e.decode(window) && chunk.tokenCount == |window|
  {
    WindowIsStretch(e.encode(text), size, overlap, k);
    OffsetIsProduct(k, Stride(size, overlap));
  }

  predicate ContiguousFromZero(chunks: seq<Chunk>) {
    forall k :: 0 <= k < |chunks| ==> chunks[k].index == k
  }

  ghost predicate Occurs(part: string, whole: string) {
    exists before: string, after: string :: Around(before, part, after) == whole
  }

  function Around(before: string, part: string, after: string): string {
    before + part + after
  }

  /** `"\n\n".join(parts)` */
  function Join(parts: seq<string>): string {
    if parts == [] then ""
    else if |parts| == 1 then parts[0]
    else Join(parts[..|parts| - 1]) + "\n\n" + parts[|parts| - 1]
  }

  lemma {:induction false} JoinHoldsEveryPart(parts: seq<string>, i: nat)
    requires i < |parts|
    ensures Occurs(parts[i], Join(parts))
  {
    if |parts| == 1 {
      assert Around("", parts[i], "") == Join(parts);
    } else {
      var front := parts[..|parts| - 1];
      var last := "\n\n" + parts[|parts| - 1];
      if i == |parts| - 1 {
        assert Around(Join(front) + "\n\n", parts[i], "") == Join(parts);
      } else {
        JoinHoldsEveryPart(front, i);
        var before, after :| Around(before, parts[i], after) == Join(front);
        assert Around(before, parts[i], after + last) == Join(front) + last;
        assert Join(front) + last == Join(parts);
      }
    }
  }

  /** Where a paragraph that fits a chunk must be found: whole, in one chunk. A longer one must be
      there as its own sliding windows, in order. */
  ghost predicate KeptIn(paragraph: string, chunks: seq<Chunk>, e: Encoding, size: nat, overlap: nat)
    requires size >= 1
  {
    if |e.encode(paragraph)| <= size then
      exists k :: 0 <= k < |chunks| && Occurs(paragraph, chunks[k].content)
    else
      exists at: nat :: HoldsAt(WindowChunks(e, paragraph, size, overlap), chunks, at)
  }

  predicate HoldsAt(own: seq<Chunk>, chunks: seq<Chunk>, at: nat) {
    && at + |own| <= |chunks|
    && forall k :: 0 <= k < |own| ==>
         chunks[at + k].content == own[k].content && chunks[at + k].tokenCount == own[k].tokenCount
  }

  lemma KeptInMore(paragraph: string, chunks: seq<Chunk>, more: seq<Chunk>, e: Encoding, size: nat, overlap: nat)
    requires size >= 1
    requires KeptIn(paragraph, chunks, e, size, overlap)
    ensures KeptIn(paragraph, chunks + more, e, size, overlap)
  {
    if |e.encode(paragraph)| <= size {
      var k :| 0 <= k < |chunks| && Occurs(paragraph, chunks[k].content);
      assert (chunks + more)[k] == chunks[k];
    } else {
      var own := WindowChunks(e, paragraph, size, overlap);
      var at: nat :| HoldsAt(own, chunks, at);
      assert HoldsAt(own, chunks + more, at);
    }
  }

  /** Every paragraph read so far is in a finished chunk or, if it fits one, in the chunk being built. */
  ghost predicate AllKept(paragraphs: seq<string>, chunks: seq<Chunk>, current: seq<string>, e: Encoding, size: nat, overlap: nat)
    requires size >= 1
  {
    forall j :: 0 <= j < |paragraphs| ==>
      || KeptIn(paragraphs[j], chunks, e, size, overlap)
      || (paragraphs[j] in current && |e.encode(paragraphs[j])| <= size)
  }

  lemma KeptAfterFlush(paragraphs: seq<string>, chunks: seq<Chunk>, current: seq<string>, chunk: Chunk,
                       e: Encoding, size: nat, overlap: nat)
    requires size >= 1 && AllKept(paragraphs, chunks, current, e, size, overlap)
    requires chunk.content == Join(current)
    ensures AllKept(paragraphs, chunks + [chunk], [], e, size, overlap)
  {
    forall j | 0 <= j < |paragraphs|
      ensures KeptIn(paragraphs[j], chunks + [chunk], e, size, overlap)
    {
      if KeptIn(paragraphs[j], chunks, e, size, overlap) {
        KeptInMore(paragraphs[j], chunks, [chunk], e, size, overlap);
      } else {
        var i :| 0 <= i < |current| && current[i] == paragraphs[j];
        JoinHoldsEveryPart(current, i);
        assert (chunks + [chunk])[|chunks|] == chunk;
      }
    }
  }

  lemma KeptAfterAdding(paragraphs: seq<string>, paragraph: string, chunks: seq<Chunk>, before: seq<string>, current: seq<string>,
                        e: Encoding, size: nat, overlap: nat)
    requires size >= 1 && AllKept(paragraphs, chunks, before, e, size, overlap)
    requires (before == [] || before == current) && |e.encode(paragraph)| <= size
    ensures AllKept(paragraphs + [paragraph], chunks, current + [paragraph], e, size, overlap)
  {
    var all := paragraphs + [paragraph];
    forall j | 0 <= j < |all|
      ensures KeptIn(all[j], chunks, e, size, overlap) || (all[j] in current + [paragraph] && |e.encode(all[j])| <= size)
    {
      if j < |paragraphs| {
        assert all[j] == paragraphs[j];
      }
    }
  }

  lemma TakeOneMore(paragraphs: seq<string>, i: nat)
    requires i < |paragraphs|
    ensures paragraphs[..i + 1] == paragraphs[..i] + [paragraphs[i]]
  {
  }

  lemma KeptAfterSplit(paragraphs: seq<string>, paragraph: string, chunks: seq<Chunk>, more: seq<Chunk>,
                       e: Encoding, size: nat, overlap: nat)
    requires size >= 1 && AllKept(paragraphs, chunks, [], e, size, overlap)
    requires |e.encode(paragraph)| > size
    requires |more| == |WindowChunks(e, paragraph, size, overlap)|
    requires HoldsAt(WindowChunks(e, paragraph, size, overlap), more, 0)
    ensures AllKept(paragraphs + [paragraph], chunks + more, [], e, size, overlap)
  {
    forall j | 0 <= j < |paragraphs|
      ensures KeptIn(paragraphs[j], chunks + more, e, size, overlap)
    {
      KeptInMore(paragraphs[j], chunks, more, e, size, overlap);
    }
    assert HoldsAt(WindowChunks(e, paragraph, size, overlap), chunks + more, |chunks|);
  }

  // ---------------------------------------------------------------------------------------------
  // How paragraphs are packed
  // ---------------------------------------------------------------------------------------------

  /** What one or more chunks are made of: a paragraph that is too long, cut up, or a group of paragraphs in
      one chunk, behind what it shares with the chunk before. */
  datatype Piece = Cut(paragraph: string) | Packed(shared: string, group: seq<string>) {
    function Paragraphs(): seq<string> {
      if Cut? then [paragraph] else group
    }

    function Parts(): seq<string>
      requires Packed?
    {
      if shared != "" then [shared] + group else group
    }
  }

  function Tokens(e: Encoding, parts: seq<string>): nat {
    if parts == [] then 0 else Tokens(e, parts[..|parts| - 1]) + |e.encode(parts[|parts| - 1])|
  }

  /** Where a paragraph starts: each one before it and its break of two characters are counted. */
  function Place(before: seq<string>): nat {
    if before == [] then 0 else Place(before[..|before| - 1]) + |before[|before| - 1]| + 2
  }

  function Flat(pieces: seq<Piece>): seq<string> {
    if pieces == [] then [] else Flat(pieces[..|pieces| - 1]) + pieces[|pieces| - 1].Paragraphs()
  }

  /** What a chunk shares with the one before: its last paragraph, or the last `overlap` tokens of it. */
  function SharedAfter(e: Encoding, overlap: nat, before: Option<Piece>): string {
    if before.None? || before.value.Cut? || before.value.group == [] then ""
    else
      var last := before.value.group[|before.value.group| - 1];
      var tokens := e.encode(last);
      if |tokens| <= overlap then last else e.decode(if overlap == 0 then tokens else tokens[|tokens| - overlap..])
  }

  /** A piece in its place: only what is too long is cut, a group takes every paragraph that still fits, and
      the first of the next one did not. */
  predicate Fits(e: Encoding, size: nat, overlap: nat, before: Option<Piece>, piece: Piece) {
    match piece
    case Cut(paragraph) => |e.encode(paragraph)| > size
    case Packed(shared, group) =>
      && group != [] && shared == SharedAfter(e, overlap, before)
      && (forall p <- group :: |e.encode(p)| <= size)
      && (|group| > 1 ==> Tokens(e, piece.Parts()) <= size)
      && (before.Some? && before.value.Packed? ==> Tokens(e, before.value.Parts()) + |e.encode(group[0])| > size)
  }

  function Last(pieces: seq<Piece>): Option<Piece> {
    if pieces == [] then None else Some(pieces[|pieces| - 1])
  }

  predicate Packing(e: Encoding, size: nat, overlap: nat, pieces: seq<Piece>) {
    pieces == [] || (&& Packing(e, size, overlap, pieces[..|pieces| - 1])
                     && Fits(e, size, overlap, Last(pieces[..|pieces| - 1]), pieces[|pieces| - 1]))
  }

  /** The chunks of some pieces: one for a group, from where its first paragraph starts to where the next one
      would, and the windows of a paragraph that was cut. */
  function Rendered(e: Encoding, size: nat, overlap: nat, pieces: seq<Piece>): seq<Chunk>
    requires size >= 1
  {
    if pieces == [] then []
    else
      var earlier, last := pieces[..|pieces| - 1], pieces[|pieces| - 1];
      var chunks := Rendered(e, size, overlap, earlier);
      var start := Place(Flat(earlier));
      match last
      case Cut(paragraph) =>
        var own := WindowChunks(e, paragraph, size, overlap);
        chunks + seq(|own|, k requires 0 <= k < |own| => Shifted(own[k], |chunks|, k, start))
      case Packed(_, _) =>
        chunks + [Chunk(Join(last.Parts()), |chunks|, Tokens(e, last.Parts()), start, Place(Flat(pieces)))]
  }

  /** A chunk of a paragraph as one of all: renumbered, and moved to where the paragraph starts. */
  function Shifted(chunk: Chunk, first: nat, k: nat, position: nat): Chunk {
    chunk.(index := first + k, startChar := chunk.startChar + position, endChar := chunk.endChar + position)
  }

  /** Where the loop is: some pieces are finished, one may be open, and the variables say what it holds. */
  predicate Underway(e: Encoding, size: nat, overlap: nat, read: seq<string>, pieces: seq<Piece>, open: Option<Piece>,
                     chunks: seq<Chunk>, current: seq<string>, tokens: nat, start: nat, position: nat)
    requires size >= 1
  {
    && Packing(e, size, overlap, pieces) && chunks == Rendered(e, size, overlap, pieces)
    && start == Place(Flat(pieces)) && position == Place(read) && tokens == Tokens(e, current)
    && match open
       case None => current == [] && Flat(pieces) == read && (pieces != [] ==> Last(pieces).value.Cut?)
       case Some(Packed(shared, group)) =>
         && Fits(e, size, overlap, Last(pieces), Packed(shared, group))
         && current == Packed(shared, group).Parts() && Flat(pieces) + group == read
       case Some(_) => false
  }

  lemma OneMorePiece(e: Encoding, size: nat, overlap: nat, pieces: seq<Piece>, piece: Piece)
    requires Packing(e, size, overlap, pieces) && Fits(e, size, overlap, Last(pieces), piece)
    ensures Packing(e, size, overlap, pieces + [piece]) && Flat(pieces + [piece]) == Flat(pieces) + piece.Paragraphs()
    ensures Last(pieces + [piece]) == Some(piece)
  {
    assert (pieces + [piece])[..|pieces|] == pieces;
  }

  lemma PlaceOneMore(read: seq<string>, paragraph: string)
    ensures Place(read + [paragraph]) == Place(read) + |paragraph| + 2
  {
    assert (read + [paragraph])[..|read|] == read;
  }

  lemma TokensOneMore(e: Encoding, parts: seq<string>, part: string)
    ensures Tokens(e, parts + [part]) == Tokens(e, parts) + |e.encode(part)|
  {
    assert (parts + [part])[..|parts|] == parts;
  }

  /** Closing the open piece. */
  lemma ClosesPiece(e: Encoding, size: nat, overlap: nat, read: seq<string>, pieces: seq<Piece>, open: Piece,
                    chunks: seq<Chunk>, current: seq<string>, tokens: nat, start: nat, position: nat)
    requires size >= 1 && Underway(e, size, overlap, read, pieces, Some(open), chunks, current, tokens, start, position)
    ensures Packing(e, size, overlap, pieces + [open]) && Flat(pieces + [open]) == read && Last(pieces + [open]) == Some(open)
    ensures Rendered(e, size, overlap, pieces + [open]) == chunks + [Chunk(Join(current), |chunks|, tokens, start, position)]
  {
    OneMorePiece(e, size, overlap, pieces, open);
    assert (pieces + [open])[..|pieces|] == pieces;
  }

  /** A first paragraph of a piece, behind what it shares. */
  lemma OpensPiece(e: Encoding, size: nat, overlap: nat, read: seq<string>, pieces: seq<Piece>, chunks: seq<Chunk>, paragraph: string)
    requires size >= 1 && Packing(e, size, overlap, pieces) && chunks == Rendered(e, size, overlap, pieces) && Flat(pieces) == read
    requires |e.encode(paragraph)| <= size
    requires pieces != [] && Last(pieces).value.Packed? ==> Tokens(e, Last(pieces).value.Parts()) + |e.encode(paragraph)| > size
    ensures var shared := SharedAfter(e, overlap, Last(pieces));
            var before := if shared != "" then [shared] else [];
            Underway(e, size, overlap, read + [paragraph], pieces, Some(Packed(shared, [paragraph])), chunks, before + [paragraph],
                     Tokens(e, before) + |e.encode(paragraph)|, Place(read), Place(read) + |paragraph| + 2)
  {
    var shared := SharedAfter(e, overlap, Last(pieces));
    var before := if shared != "" then [shared] else [];
    PlaceOneMore(read, paragraph);
    TokensOneMore(e, before, paragraph);
    assert Packed(shared, [paragraph]).Parts() == before + [paragraph];
  }

  /** One more paragraph in the open piece. */
  lemma ExtendsPiece(e: Encoding, size: nat, overlap: nat, read: seq<string>, pieces: seq<Piece>, open: Piece, chunks: seq<Chunk>,
                     current: seq<string>, tokens: nat, start: nat, position: nat, paragraph: string)
    requires size >= 1 && Underway(e, size, overlap, read, pieces, Some(open), chunks, current, tokens, start, position)
    requires tokens + |e.encode(paragraph)| <= size
    ensures Underway(e, size, overlap, read + [paragraph], pieces, Some(Packed(open.shared, open.group + [paragraph])), chunks,
                     current + [paragraph], tokens + |e.encode(paragraph)|, start, position + |paragraph| + 2)
  {
    PlaceOneMore(read, paragraph);
    TokensOneMore(e, current, paragraph);
    LongerFits(e, size, overlap, Last(pieces), open, paragraph);
    InARow(Flat(pieces), open.group, paragraph);
  }

  lemma InARow(before: seq<string>, group: seq<string>, paragraph: string)
    ensures before + (group + [paragraph]) == before + group + [paragraph]
  {
  }

  lemma LongerFits(e: Encoding, size: nat, overlap: nat, before: Option<Piece>, open: Piece, paragraph: string)
    requires open.Packed? && Fits(e, size, overlap, before, open) && Tokens(e, open.Parts()) + |e.encode(paragraph)| <= size
    ensures var longer := Packed(open.shared, open.group + [paragraph]);
            Fits(e, size, overlap, before, longer) && longer.Parts() == open.Parts() + [paragraph]
  {
    var longer := Packed(open.shared, open.group + [paragraph]);
    assert longer.Parts() == open.Parts() + [paragraph];
    TokensOneMore(e, open.Parts(), paragraph);
    assert forall p <- longer.group :: p in open.group || p == paragraph;
    assert longer.group[0] == open.group[0];
  }

  /** The next piece, behind what it shares with the one just closed. */
  lemma OpensNext(e: Encoding, size: nat, overlap: nat, read: seq<string>, pieces: seq<Piece>, closed: Piece, chunks: seq<Chunk>,
                  paragraph: string, before: seq<string>, tokens: nat, position: nat)
    requires size >= 1 && Packing(e, size, overlap, pieces) && chunks == Rendered(e, size, overlap, pieces) && Flat(pieces) == read
    requires Last(pieces) == Some(closed) && closed.Packed? && position == Place(read)
    requires |e.encode(paragraph)| <= size < Tokens(e, closed.Parts()) + |e.encode(paragraph)|
    requires before == if SharedAfter(e, overlap, Some(closed)) != "" then [SharedAfter(e, overlap, Some(closed))] else []
    requires tokens == Tokens(e, before)
    ensures Underway(e, size, overlap, read + [paragraph], pieces, Some(Packed(SharedAfter(e, overlap, Some(closed)), [paragraph])), chunks,
                     before + [paragraph], tokens + |e.encode(paragraph)|, position, position + |paragraph| + 2)
  {
    OpensPiece(e, size, overlap, read, pieces, chunks, paragraph);
  }

  /** A paragraph that is too long. */
  lemma CutsPiece(e: Encoding, size: nat, overlap: nat, read: seq<string>, pieces: seq<Piece>, chunks: seq<Chunk>, paragraph: string,
                  more: seq<Chunk>)
    requires size >= 1 && Packing(e, size, overlap, pieces) && chunks == Rendered(e, size, overlap, pieces) && Flat(pieces) == read
    requires |e.encode(paragraph)| > size && |more| == |WindowChunks(e, paragraph, size, overlap)|
    requires forall k {:trigger more[k]} :: 0 <= k < |more| ==>
               more[k] == Shifted(WindowChunks(e, paragraph, size, overlap)[k], |chunks|, k, Place(read))
    ensures Underway(e, size, overlap, read + [paragraph], pieces + [Cut(paragraph)], None, chunks + more, [], 0,
                     Place(read) + |paragraph| + 2, Place(read) + |paragraph| + 2)
  {
    OneMorePiece(e, size, overlap, pieces, Cut(paragraph));
    PlaceOneMore(read, paragraph);
    CutIsRendered(e, size, overlap, pieces, paragraph, more);
  }

  lemma CutIsRendered(e: Encoding, size: nat, overlap: nat, pieces: seq<Piece>, paragraph: string, more: seq<Chunk>)
    requires size >= 1 && |more| == |WindowChunks(e, paragraph, size, overlap)|
    requires forall k {:trigger more[k]} :: 0 <= k < |more| ==>
               more[k] == Shifted(WindowChunks(e, paragraph, size, overlap)[k], |Rendered(e, size, overlap, pieces)|, k, Place(Flat(pieces)))
    ensures Rendered(e, size, overlap, pieces + [Cut(paragraph)]) == Rendered(e, size, overlap, pieces) + more
  {
    var chunks, own, start := Rendered(e, size, overlap, pieces), WindowChunks(e, paragraph, size, overlap), Place(Flat(pieces));
    assert (pieces + [Cut(paragraph)])[..|pieces|] == pieces;
    ShiftedOnes(own, more, |chunks|, start);
  }

  lemma ShiftedOnes(own: seq<Chunk>, more: seq<Chunk>, first: nat, start: nat)
    requires |more| == |own| && forall k {:trigger more[k]} :: 0 <= k < |more| ==> more[k] == Shifted(own[k], first, k, start)
    ensures seq(|own|, k requires 0 <= k < |own| => Shifted(own[k], first, k, start)) == more
  {
  }

  /** The chunks of a text that is one paragraph. When it fits one chunk, `endChar` counts the two
      characters of a paragraph break that is not there. */
  function OneParagraph(e: Encoding, paragraph: string, size: nat, overlap: nat): seq<Chunk>
    requires size >= 1
  {
    if |e.encode(paragraph)| > size then WindowChunks(e, paragraph, size, overlap)
    else [Chunk(paragraph, 0, |e.encode(paragraph)|, 0, |paragraph| + 2)]
  }

  /** A text that fits one chunk has one window, all of it. */
  lemma FittingTextIsOneWindow(e: Encoding, text: string, size: nat, overlap: nat)
    requires size >= 1 && e.RoundTrips() && text != "" && |e.encode(text)| <= size
    ensures WindowChunks(e, text, size, overlap) == [Chunk(text, 0, |e.encode(text)|, 0, |text|)]
  {
    var tokens := e.encode(text);
    assert e.decode(tokens) == text;
    assert Windows(tokens, size, overlap) == [tokens];
    var windows := WindowChunks(e, text, size, overlap);
    assert windows[0] == ChunkAt(e, tokens, 0, size, 0);
    assert Stretch(tokens, 0, size) == tokens && Stretch(tokens, 0, 0) == [];
    assert windows == [windows[0]];
  }

  /** `chunk_text` on a text that is not blank is the sliding window on the cleaned text: the same
      chunks, unless the text fits one chunk. That one is the window too, but for its last character
      offset, which is two too high. */
  lemma OneParagraphIsSlidingWindow(e: Encoding, text: string, size: nat, overlap: nat)
    requires size >= 1 && e.RoundTrips() && !IsBlank(text)
    ensures var chunks, windows := OneParagraph(e, Clean(text), size, overlap), WindowChunks(e, Clean(text), size, overlap);
            if |e.encode(Clean(text))| > size then chunks == windows
            else |windows| == 1 && chunks == [windows[0].(endChar := windows[0].endChar + 2)]
  {
    CleanTextIsOneParagraph(text);
    if |e.encode(Clean(text))| <= size {
      FittingTextIsOneWindow(e, Clean(text), size, overlap);
    }
  }

  /** Rendered chunks are numbered from 0. */
  lemma {:induction false} RenderedInOrder(e: Encoding, size: nat, overlap: nat, pieces: seq<Piece>)
    requires size >= 1
    ensures ContiguousFromZero(Rendered(e, size, overlap, pieces))
  {
    if pieces != [] {
      RenderedInOrder(e, size, overlap, pieces[..|pieces| - 1]);
    }
  }

  /** One paragraph is one piece, which shares nothing. */
  lemma OneParagraphIsOnePiece(e: Encoding, size: nat, overlap: nat, pieces: seq<Piece>, paragraph: string)
    requires size >= 1 && Packing(e, size, overlap, pieces) && Flat(pieces) == [paragraph]
    ensures Rendered(e, size, overlap, pieces) == OneParagraph(e, paragraph, size, overlap)
  {
    var n := |pieces| - 1;
    assert |Flat(pieces)| == |Flat(pieces[..n])| + |pieces[n].Paragraphs()|;
    if pieces[..n] != [] {
      PiecesAreNotEmpty(e, size, overlap, pieces[..n]);
      assert false;
    }
    assert Flat(pieces) == pieces[n].Paragraphs();
    assert Place([paragraph]) == Place([]) + |paragraph| + 2;
    match pieces[n]
    case Cut(p) =>
      var own := WindowChunks(e, p, size, overlap);
      forall k | 0 <= k < |own|
        ensures Shifted(own[k], 0, k, 0) == own[k]
      {
      }
      assert Rendered(e, size, overlap, pieces) == own;
    case Packed(shared, group) =>
      assert shared == "" && group == [paragraph];
      assert Tokens(e, [paragraph]) == Tokens(e, []) + |e.encode(paragraph)|;
  }

  lemma PiecesAreNotEmpty(e: Encoding, size: nat, overlap: nat, pieces: seq<Piece>)
    requires Packing(e, size, overlap, pieces) && pieces != []
    ensures Flat(pieces) != []
  {
  }

  /** The chunk contents `chunk_text` makes of a text. */
  function ChunkTexts(e: Encoding, size: nat, overlap: nat, text: string): (contents: seq<string>)
    requires size >= 1
  {
    if IsBlank(text) then []
    else
      var chunks := OneParagraph(e, Clean(text), size, overlap);
      seq(|chunks|, k requires 0 <= k < |chunks| => chunks[k].content)
  }

  class ChunkingService {
    const encoding: Encoding
    const chunkSize: nat
    const chunkOverlap: nat

    constructor (encoding: Encoding, chunkSize: nat := 750, chunkOverlap: nat := 150)
      requires chunkSize >= 1
      ensures this.encoding == encoding && this.chunkSize == chunkSize && this.chunkOverlap == chunkOverlap
    {
      this.encoding := encoding;
      this.chunkSize := chunkSize;
      this.chunkOverlap := chunkOverlap;
    }

    /** The window loop computes exactly the closed-form windows. */
    method ChunkByTokens(text: string) returns (chunks: seq<Chunk>)
      requires chunkSize >= 1
      ensures chunks == WindowChunks(encoding, text, chunkSize, chunkOverlap)
    {
      var tokens := encoding.encode(text);
      chunks := [];
      var start := 0;
      ghost var left := Windows(tokens, chunkSize, chunkOverlap);
      assert tokens[0..] == tokens;
      while start < |tokens|
        invariant start == Offset(|chunks|, Stride(chunkSize, chunkOverlap))
        invariant left == if start < |tokens| then Windows(tokens[start..], chunkSize, chunkOverlap) else []
        invariant |chunks| + |left| == |Windows(tokens, chunkSize, chunkOverlap)|
        invariant CutInOrder(chunks, encoding, tokens, chunkSize, chunkOverlap)
      {
        WindowsStep(tokens, start, chunkSize, chunkOverlap);
        left := left[1..];
        var chunk, newStart := CutChunk(tokens, start, |chunks|);
        CutOneMore(chunks, chunk, encoding, tokens, chunkSize, chunkOverlap);
        chunks := chunks + [chunk];
        if newStart == None {
          break;
        }
        start := newStart.value;
      }
      ChunksAreWindowChunks(chunks, encoding, text, chunkSize, chunkOverlap);
    }

    /** One turn of the window loop: the chunk at `start`, and where the next one starts, if there is one. */
    method CutChunk(tokens: seq<Token>, start: nat, index: nat) returns (chunk: Chunk, newStart: Option<nat>)
      requires chunkSize >= 1 && start < |tokens|
      ensures chunk == ChunkAt(encoding, tokens, start, chunkSize, index)
      ensures newStart == if start + chunkSize < |tokens| then Some(start + Stride(chunkSize, chunkOverlap)) else None
    {
      var end := Min(start + chunkSize, |tokens|);
      assert tokens[0..start] == tokens[..start] && tokens[0..end] == tokens[..end];
      chunk := Chunk(encoding.decode(tokens[start..end]), index, |tokens[start..end]|,
                     |encoding.decode(tokens[..start])|, |encoding.decode(tokens[..end])|);
      if end >= |tokens| {
        return chunk, None;
      }
      var next := end - chunkOverlap;
      if next <= start {
        next := start + 1;
      }
      newStart := Some(next);
    }

    function OverlapContent(paragraphs: seq<string>): string {
      if paragraphs == [] then ""
      else
        var tokens := encoding.encode(paragraphs[|paragraphs| - 1]);
        if |tokens| <= chunkOverlap then paragraphs[|paragraphs| - 1]
        else if chunkOverlap == 0 then encoding.decode(tokens)  // `tokens[-0:]` is the whole list
        else encoding.decode(tokens[|tokens| - chunkOverlap..])
    }

    /** Combines paragraphs up to the chunk size. Whatever the paragraphs, their order is kept and none is
        lost: `pieces` says which of them share a chunk, and that decides the chunks. */
    method ChunkByParagraphs(paragraphs: seq<string>) returns (chunks: seq<Chunk>, ghost pieces: seq<Piece>)
      requires chunkSize >= 1
      ensures Flat(pieces) == paragraphs && Packing(encoding, chunkSize, chunkOverlap, pieces)
      ensures chunks == Rendered(encoding, chunkSize, chunkOverlap, pieces)
      ensures ContiguousFromZero(chunks)
      ensures AllKept(paragraphs, chunks, [], encoding, chunkSize, chunkOverlap)
      ensures |paragraphs| == 1 ==> chunks == OneParagraph(encoding, paragraphs[0], chunkSize, chunkOverlap)
    {
      chunks, pieces := PackParagraphs(paragraphs);
      RenderedInOrder(encoding, chunkSize, chunkOverlap, pieces);
      if |paragraphs| == 1 {
        assert paragraphs == [paragraphs[0]];
        OneParagraphIsOnePiece(encoding, chunkSize, chunkOverlap, pieces, paragraphs[0]);
      }
    }

    /** Its loop. */
    method PackParagraphs(paragraphs: seq<string>) returns (chunks: seq<Chunk>, ghost pieces: seq<Piece>)
      requires chunkSize >= 1
      ensures Flat(pieces) == paragraphs && Packing(encoding, chunkSize, chunkOverlap, pieces)
      ensures chunks == Rendered(encoding, chunkSize, chunkOverlap, pieces)
      ensures AllKept(paragraphs, chunks, [], encoding, chunkSize, chunkOverlap)
    {
      chunks, pieces := [], [];
      ghost var open: Option<Piece> := None;
      var current: seq<string> := [];
      var currentTokens: nat, currentStart: nat, position: nat := 0, 0, 0;
      for i := 0 to |paragraphs|
        invariant Underway(encoding, chunkSize, chunkOverlap, paragraphs[..i], pieces, open, chunks, current, currentTokens, currentStart, position)
        invariant AllKept(paragraphs[..i], chunks, current, encoding, chunkSize, chunkOverlap)
      {
        TakeOneMore(paragraphs, i);
        chunks, current, currentTokens, currentStart, position, pieces, open :=
          AddParagraph(paragraphs[..i], paragraphs[i], chunks, current, currentTokens, currentStart, position, pieces, open);
      }
      assert paragraphs[..|paragraphs|] == paragraphs;
      chunks, pieces := Flush(paragraphs, chunks, current, currentTokens, currentStart, position, pieces, open);
    }

    /** One turn of the paragraph loop. */
    method AddParagraph(ghost read: seq<string>, paragraph: string, chunks: seq<Chunk>, current: seq<string>,
                        currentTokens: nat, currentStart: nat, position: nat, ghost pieces: seq<Piece>, ghost open: Option<Piece>)
      returns (chunks': seq<Chunk>, current': seq<string>, currentTokens': nat, currentStart': nat, position': nat,
               ghost pieces': seq<Piece>, ghost open': Option<Piece>)
      requires chunkSize >= 1
      requires Underway(encoding, chunkSize, chunkOverlap, read, pieces, open, chunks, current, currentTokens, currentStart, position)
      requires AllKept(read, chunks, current, encoding, chunkSize, chunkOverlap)
      ensures Underway(encoding, chunkSize, chunkOverlap, read + [paragraph], pieces', open', chunks', current', currentTokens', currentStart', position')
      ensures AllKept(read + [paragraph], chunks', current', encoding, chunkSize, chunkOverlap)
    {
      position' := position + |paragraph| + 2;
      if |encoding.encode(paragraph)| > chunkSize {
        chunks', pieces' := Flush(read, chunks, current, currentTokens, currentStart, position, pieces, open);
        chunks', pieces' := AppendSplit(read, paragraph, chunks', position, pieces');
        current', currentTokens', currentStart', open' := [], 0, position', None;
      } else if currentTokens + |encoding.encode(paragraph)| > chunkSize && current != [] {
        chunks', current', currentTokens', pieces', open' :=
          NextChunk(read, paragraph, chunks, current, currentTokens, currentStart, position, pieces, open);
        currentStart' := position;
      } else {
        chunks', currentStart', pieces' := chunks, currentStart, pieces;
        open' := Extend(read, paragraph, chunks, current, currentTokens, currentStart, position, pieces, open);
        current', currentTokens' := current + [paragraph], currentTokens + |encoding.encode(paragraph)|;
      }
    }

    /** A paragraph that does not fit behind what is there: it opens the next chunk. */
    method NextChunk(ghost read: seq<string>, paragraph: string, chunks: seq<Chunk>, current: seq<string>,
                     currentTokens: nat, currentStart: nat, position: nat, ghost pieces: seq<Piece>, ghost open: Option<Piece>)
      returns (chunks': seq<Chunk>, current': seq<string>, currentTokens': nat, ghost pieces': seq<Piece>, ghost open': Option<Piece>)
      requires chunkSize >= 1 && current != []
      requires |encoding.encode(paragraph)| <= chunkSize < currentTokens + |encoding.encode(paragraph)|
      requires Underway(encoding, chunkSize, chunkOverlap, read, pieces, open, chunks, current, currentTokens, currentStart, position)
      requires AllKept(read, chunks, current, encoding, chunkSize, chunkOverlap)
      ensures Underway(encoding, chunkSize, chunkOverlap, read + [paragraph], pieces', open', chunks', current', currentTokens',
                       position, position + |paragraph| + 2)
      ensures AllKept(read + [paragraph], chunks', current', encoding, chunkSize, chunkOverlap)
    {
      chunks', pieces' := Flush(read, chunks, current, currentTokens, currentStart, position, pieces, open);
      LastOf(pieces, open.value);
      var before, tokens := StartWithOverlap(current, open.value);
      OpensNext(encoding, chunkSize, chunkOverlap, read, pieces', open.value, chunks', paragraph, before, tokens, position);
      KeptAfterAdding(read, paragraph, chunks', [], before, encoding, chunkSize, chunkOverlap);
      open' := Some(Packed(SharedAfter(encoding, chunkOverlap, open), [paragraph]));
      current', currentTokens' := before + [paragraph], tokens + |encoding.encode(paragraph)|;
    }

    static lemma LastOf(pieces: seq<Piece>, piece: Piece)
      ensures Last(pieces + [piece]) == Some(piece)
    {
    }

    /** A paragraph that fits behind what is there. */
    ghost method Extend(read: seq<string>, paragraph: string, chunks: seq<Chunk>, current: seq<string>, currentTokens: nat,
                        currentStart: nat, position: nat, pieces: seq<Piece>, open: Option<Piece>)
      returns (open': Option<Piece>)
      requires chunkSize >= 1 && |encoding.encode(paragraph)| <= chunkSize
      requires current != [] ==> currentTokens + |encoding.encode(paragraph)| <= chunkSize
      requires Underway(encoding, chunkSize, chunkOverlap, read, pieces, open, chunks, current, currentTokens, currentStart, position)
      requires AllKept(read, chunks, current, encoding, chunkSize, chunkOverlap)
      ensures Underway(encoding, chunkSize, chunkOverlap, read + [paragraph], pieces, open', chunks, current + [paragraph],
                       currentTokens + |encoding.encode(paragraph)|, currentStart, position + |paragraph| + 2)
      ensures AllKept(read + [paragraph], chunks, current + [paragraph], encoding, chunkSize, chunkOverlap)
    {
      KeptAfterAdding(read, paragraph, chunks, current, current, encoding, chunkSize, chunkOverlap);
      if open.None? {
        OpensPiece(encoding, chunkSize, chunkOverlap, read, pieces, chunks, paragraph);
        open' := Some(Packed("", [paragraph]));
        assert current + [paragraph] == [] + [paragraph];
      } else {
        ExtendsPiece(encoding, chunkSize, chunkOverlap, read, pieces, open.value, chunks, current, currentTokens, currentStart, position, paragraph);
        open' := Some(Packed(open.value.shared, open.value.group + [paragraph]));
      }
    }

    /** What the next chunk begins with. */
    method StartWithOverlap(current: seq<string>, ghost closed: Piece) returns (start: seq<string>, tokens: nat)
      requires closed.Packed? && closed.group != [] && current == closed.Parts()
      ensures start == if SharedAfter(encoding, chunkOverlap, Some(closed)) != "" then [SharedAfter(encoding, chunkOverlap, Some(closed))] else []
      ensures tokens == Tokens(encoding, start)
    {
      var shared := OverlapContent(current);
      assert current[|current| - 1] == closed.group[|closed.group| - 1];
      start := if shared != "" then [shared] else [];
      tokens := if shared != "" then |encoding.encode(shared)| else 0;
      assert [shared][..0] == [];
      assert Tokens(encoding, [shared]) == Tokens(encoding, []) + |encoding.encode(shared)|;
    }

    /** Closes the chunk being built, if there is one. */
    method Flush(ghost read: seq<string>, finished: seq<Chunk>, current: seq<string>, tokens: nat, start: nat, end: nat,
                 ghost pieces: seq<Piece>, ghost open: Option<Piece>)
      returns (chunks: seq<Chunk>, ghost pieces': seq<Piece>)
      requires chunkSize >= 1
      requires Underway(encoding, chunkSize, chunkOverlap, read, pieces, open, finished, current, tokens, start, end)
      requires AllKept(read, finished, current, encoding, chunkSize, chunkOverlap)
      ensures pieces' == if open.None? then pieces else pieces + [open.value]
      ensures Packing(encoding, chunkSize, chunkOverlap, pieces') && Flat(pieces') == read
      ensures chunks == Rendered(encoding, chunkSize, chunkOverlap, pieces')
      ensures AllKept(read, chunks, [], encoding, chunkSize, chunkOverlap)
    {
      chunks, pieces' := finished, pieces;
      if current != [] {
        var chunk := Chunk(Join(current), |finished|, tokens, start, end);
        KeptAfterFlush(read, finished, current, chunk, encoding, chunkSize, chunkOverlap);
        ClosesPiece(encoding, chunkSize, chunkOverlap, read, pieces, open.value, finished, current, tokens, start, end);
        chunks, pieces' := finished + [chunk], pieces + [open.value];
      }
    }

    /** Cuts a paragraph that is longer than a chunk and renumbers its windows after `finished`. */
    method AppendSplit(ghost read: seq<string>, paragraph: string, finished: seq<Chunk>, position: nat, ghost pieces: seq<Piece>)
      returns (chunks: seq<Chunk>, ghost pieces': seq<Piece>)
      requires chunkSize >= 1 && |encoding.encode(paragraph)| > chunkSize
      requires Packing(encoding, chunkSize, chunkOverlap, pieces) && Flat(pieces) == read && position == Place(read)
      requires finished == Rendered(encoding, chunkSize, chunkOverlap, pieces)
      requires AllKept(read, finished, [], encoding, chunkSize, chunkOverlap)
      ensures Underway(encoding, chunkSize, chunkOverlap, read + [paragraph], pieces', None, chunks, [], 0,
                       position + |paragraph| + 2, position + |paragraph| + 2)
      ensures AllKept(read + [paragraph], chunks, [], encoding, chunkSize, chunkOverlap)
    {
      var subChunks := ChunkByTokens(paragraph);
      var more := Renumbered(subChunks, |finished|, position);
      KeptAfterSplit(read, paragraph, finished, more, encoding, chunkSize, chunkOverlap);
      CutsPiece(encoding, chunkSize, chunkOverlap, read, pieces, finished, paragraph, more);
      chunks, pieces' := finished + more, pieces + [Cut(paragraph)];
    }

    static method Renumbered(subChunks: seq<Chunk>, first: nat, position: nat) returns (more: seq<Chunk>)
      ensures |more| == |subChunks|
      ensures forall k {:trigger more[k]} :: 0 <= k < |more| ==> more[k] == Shifted(subChunks[k], first, k, position)
    {
      more := [];
      for k := 0 to |subChunks|
        invariant |more| == k
        invariant forall j {:trigger more[j]} :: 0 <= j < k ==> more[j] == Shifted(subChunks[j], first, j, position)
      {
        more := more + [Shifted(subChunks[k], first, k, position)];
      }
    }

    /** `chunk_text`: nothing for a blank text, else the sliding window over the cleaned text. */
    method ChunkText(text: string) returns (chunks: seq<Chunk>)
      requires chunkSize >= 1
      ensures ContiguousFromZero(chunks)
      ensures chunks == if IsBlank(text) then [] else OneParagraph(encoding, Clean(text), chunkSize, chunkOverlap)
      ensures |chunks| == |ChunkTexts(encoding, chunkSize, chunkOverlap, text)|
      ensures forall k :: 0 <= k < |chunks| ==> chunks[k].content == ChunkTexts(encoding, chunkSize, chunkOverlap, text)[k]
    {
      if Strip(text) == "" {
        StripFixesStripped(text);
        return [];
      }
      StripFixesStripped(text);
      CleanTextIsOneParagraph(text);
      var clean := Clean(text);
      var paragraphs := SplitIntoParagraphs(clean);
      if paragraphs != [] {
        ghost var pieces;
        chunks, pieces := ChunkByParagraphs(paragraphs);
      } else {
        chunks := ChunkByTokens(clean);
      }
    }
  }
}
