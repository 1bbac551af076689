/** The reply chunker of the chat client (`ChatResponse.as_chunks` and
    `_split_long_sentence`): a reply is cut into sentences, and a sentence
    longer than the chunk size is cut at its last comma or hyphen before
    the limit, over and over. When no such separator exists the Python loop
    never finishes; here that case is the `None` of `SentencePieces`. */
module Chunker {
  import opened Common
  import opened Text

  /** The default `max_chunk_size`. */
  const DefaultChunkSize: nat := 50

  predicate SentenceEnd(c: char) {
    c == '.' || c == '!' || c == '?'
  }

  predicate IsSeparator(c: char) {
    c == ',' || c == '-'
  }

  /** Position `k` is where the pattern `(?<=[.!?]) +` can start: a space
      right after sentence-ending punctuation. */
  predicate BreakAt(s: string, k: int) {
    1 <= k < |s| && SentenceEnd(s[k - 1]) && s[k] == ' '
  }

  predicate NoBreak(s: string) {
    forall k :: 0 <= k < |s| ==> !BreakAt(s, k)
  }

  /** The first break position at or after `from`. */
  function FirstBreak(s: string, from: nat): (k: int)
    ensures k == -1 || (from <= k < |s| && BreakAt(s, k))
    ensures forall j :: from <= j < |s| && (k == -1 || j < k) ==> !BreakAt(s, j)
    decreases |s| - from
  {
    if from >= |s| then -1
    else if BreakAt(s, from) then from
    else FirstBreak(s, from + 1)
  }

  /** The end of the run of spaces starting at `k` (the greedy ` +`). */
  function SpaceRunEnd(s: string, k: nat): (j: nat)
    requires k <= |s|
    ensures k <= j <= |s| && (j == |s| || s[j] != ' ')
    ensures forall i :: k <= i < j ==> s[i] == ' '
    decreases |s| - k
  {
    if k == |s| || s[k] != ' ' then k else SpaceRunEnd(s, k + 1)
  }

  /** A sentence and the run of spaces `re.split` dropped after it. */
  datatype Segment = Segment(text: string, gap: string)

  function Concat(segs: seq<Segment>): string {
    if segs == [] then "" else segs[0].text + segs[0].gap + Concat(segs[1..])
  }

  predicate AllSpaces(g: string) {
    forall i :: 0 <= i < |g| ==> g[i] == ' '
  }

  /** A sentence that `re.split` cut off: it ends in sentence punctuation
      and a non-empty run of spaces followed it. */
  predicate Closed(seg: Segment) {
    seg.text != "" && SentenceEnd(seg.text[|seg.text| - 1]) && seg.gap != "" && AllSpaces(seg.gap)
  }

  predicate NoLeadingSpace(s: string) {
    s == "" || s[0] != ' '
  }

  /** The shape of a `re.split` result: all pieces but the last were closed
      by a break, no piece holds a further break, and no piece after the
      first starts with a space (the runs are taken whole). */
  predicate WellSplit(r: seq<Segment>) {
    && |r| >= 1
    && r[|r| - 1].gap == ""
    && (forall i :: 0 <= i < |r| - 1 ==> Closed(r[i]))
    && (forall i :: 0 <= i < |r| ==> NoBreak(r[i].text))
    && (forall i :: 0 < i < |r| ==> NoLeadingSpace(r[i].text))
  }

  /** `re.split(r"(?<=[.!?]) +", text)`, keeping the dropped runs of
      spaces: putting the pieces back together gives the text. */
  function Segments(s: string): (r: seq<Segment>)
    ensures WellSplit(r) && Concat(r) == s
    decreases |s|
  {
    var k := FirstBreak(s, 0);
    if k == -1 then
      [Segment(s, "")]
    else
      var j := SpaceRunEnd(s, k);
      var rest := Segments(s[j..]);
      SegmentsStep(s, k, j, rest);
      [Segment(s[..k], s[k..j])] + rest
  }

  lemma SegmentsStep(s: string, k: nat, j: nat, rest: seq<Segment>)
    requires BreakAt(s, k) && forall i :: 0 <= i < k ==> !BreakAt(s, i)
    requires k < j <= |s| && (j == |s| || s[j] != ' ') && forall i :: k <= i < j ==> s[i] == ' '
    requires WellSplit(rest) && Concat(rest) == s[j..]
    ensures var r := [Segment(s[..k], s[k..j])] + rest;
            WellSplit(r) && Concat(r) == s
  {
    var r := [Segment(s[..k], s[k..j])] + rest;
    assert r[1..] == rest;
    assert Concat(r) == s[..k] + s[k..j] + Concat(rest);
    assert s == s[..k] + s[k..j] + s[j..];
    forall i | 0 <= i < k ensures !BreakAt(s[..k], i) {
      assert !BreakAt(s, i);
    }
    assert Closed(r[0]);
    assert NoLeadingSpace(rest[0].text) by {
      assert Concat(rest) == rest[0].text + rest[0].gap + Concat(rest[1..]);
      if rest[0].text != "" {
        assert s[j..][0] == rest[0].text[0];
      }
    }
    forall i | 0 < i < |r| ensures NoLeadingSpace(r[i].text) && NoBreak(r[i].text) && (i < |r| - 1 ==> Closed(r[i])) {
      assert r[i] == rest[i - 1];
    }
  }

  /** The sentences of a reply, in order: none holds a break, and every one
      but the last ends in sentence punctuation. */
  function Sentences(s: string): (r: seq<string>)
    ensures |r| >= 1
    ensures forall i :: 0 <= i < |r| ==> NoBreak(r[i])
    ensures forall i :: 0 <= i < |r| - 1 ==> r[i] != "" && SentenceEnd(r[i][|r[i]| - 1])
  {
    var segs := Segments(s);
    seq(|segs|, i requires 0 <= i < |segs| => segs[i].text)
  }

  /** A text without a break is a single sentence. */
  lemma OneSentence(s: string)
    requires NoBreak(s)
    ensures Sentences(s) == [s]
  {
    assert FirstBreak(s, 0) == -1;
  }

  /** Two sentences joined by one space are split apart again, and the
      space is dropped. */
  lemma TwoSentences(a: string, b: string)
    requires a != "" && SentenceEnd(a[|a| - 1]) && NoBreak(a)
    requires NoBreak(b) && NoLeadingSpace(b)
    ensures Sentences(a + " " + b) == [a, b]
  {
    var s := a + " " + b;
    var n := |a|;
    forall j | 0 <= j < n ensures !BreakAt(s, j) {
      assert !BreakAt(a, j);
      if j >= 1 { assert s[j - 1] == a[j - 1]; }
      assert s[j] == a[j];
    }
    assert BreakAt(s, n);
    assert FirstBreak(s, 0) == n;
    assert SpaceRunEnd(s, n + 1) == n + 1;
    assert SpaceRunEnd(s, n) == n + 1;
    assert s[n + 1..] == b;
    assert s[..n] == a;
    OneSentence(b);
  }

  /** The split point of `_split_long_sentence`: the larger of the last ','
      and the last '-' among the first `max` characters, or -1. */
  function SplitPoint(s: string, max: nat): (p: int)
    ensures -1 <= p < Min(max, |s|)
    ensures p >= 0 ==> IsSeparator(s[p])
    ensures forall j :: p < j < Min(max, |s|) ==> !IsSeparator(s[j])
  {
    var comma := RFind(s, ',', max);
    var hyphen := RFind(s, '-', max);
    if comma >= hyphen then comma else hyphen
  }

  /** Python's `s[:p]` for `p >= -1`: `s[:-1]` drops the last character. */
  function SliceTo(s: string, p: int): (r: string)
    requires -1 <= p <= |s|
    ensures p >= 0 ==> r == s[..p]
    ensures p == -1 ==> r == s[..if |s| == 0 then 0 else |s| - 1]
  {
    if p >= 0 then s[..p] else if |s| == 0 then s else s[..|s| - 1]
  }

  /** `_split_long_sentence(s, max)`: `(s[:p], s[p+1:])`. */
  function SplitLongSentence(s: string, max: nat): (r: (string, string))
    ensures var p := SplitPoint(s, max);
            p >= 0 ==> r.0 + [s[p]] + r.1 == s && |r.0| < max && IsSeparator(s[p])
    ensures SplitPoint(s, max) == -1 ==> r.1 == s
  {
    var p := SplitPoint(s, max);
    assert p >= 0 ==> s == s[..p] + [s[p]] + s[p + 1..];
    (SliceTo(s, p), s[p + 1..])
  }

  /** With no separator in reach, the split hands back the very sentence it
      was given, so the `while len(current_chunk) > max_chunk_size` loop is
      in the same state after every turn and never ends. */
  lemma StuckSplitRepeats(s: string, max: nat)
    requires |s| > max
    requires forall j :: 0 <= j < max ==> !IsSeparator(s[j])
    ensures SplitPoint(s, max) == -1
    ensures SplitLongSentence(s, max).1 == s
    ensures |SplitLongSentence(s, max).1| > max
    ensures SentencePieces(s, max).None?
  {
  }

  /** `s` is `ps` joined by single separator characters, in order. */
  predicate JoinedBySeparators(ps: seq<string>, s: string)
    decreases |ps|
  {
    if |ps| == 0 then false
    else if |ps| == 1 then ps[0] == s
    else
      && |ps[0]| < |s| && s[..|ps[0]|] == ps[0] && IsSeparator(s[|ps[0]|])
      && JoinedBySeparators(ps[1..], s[|ps[0]| + 1..])
  }

  /** The values `current_chunk` takes while one sentence is cut: the
      sub-chunks in order, then the final remainder. `None` when the loop
      reaches a remainder it cannot shorten. */
  function SentencePieces(s: string, max: nat): (r: Option<seq<string>>)
    ensures r.Some? ==> JoinedBySeparators(r.value, s)
    ensures r.Some? ==> forall k :: 0 <= k < |r.value| ==> |r.value[k]| <= max
    ensures r.None? ==> |s| > max
    decreases |s|
  {
    if |s| <= max then Some([s])
    else
      var p := SplitPoint(s, max);
      if p < 0 then None
      else
        var cut := SplitLongSentence(s, max);
        match SentencePieces(cut.1, max)
        case None => None
        case Some(rest) =>
          var ps := [cut.0] + rest;
          assert ps[1..] == rest;
          assert s[..|cut.0|] == cut.0 && s[|cut.0|] == s[p] && s[|cut.0| + 1..] == cut.1;
          Some(ps)
  }

  /** `filter(None, ...)`: the non-empty strings, in order. */
  function NonEmpty(xs: seq<string>): (r: seq<string>)
    ensures forall k :: 0 <= k < |r| ==> r[k] != "" && r[k] in xs
    ensures forall k :: 0 <= k < |xs| && xs[k] != "" ==> xs[k] in r
    ensures |r| <= |xs|
  {
    if xs == [] then []
    else (if xs[0] == "" then [] else [xs[0]]) + NonEmpty(xs[1..])
  }

  function StripAll(xs: seq<string>): (r: seq<string>)
    ensures |r| == |xs| && forall k :: 0 <= k < |xs| ==> r[k] == Strip(xs[k])
  {
    if xs == [] then [] else [Strip(xs[0])] + StripAll(xs[1..])
  }

  lemma {:induction false} NonEmptyAppend(a: seq<string>, b: seq<string>)
    ensures NonEmpty(a + b) == NonEmpty(a) + NonEmpty(b)
    decreases |a|
  {
    if a == [] {
      assert a + b == b;
    } else {
      assert (a + b)[0] == a[0] && (a + b)[1..] == a[1..] + b;
      NonEmptyAppend(a[1..], b);
    }
  }

  lemma {:induction false} StripAllAppend(a: seq<string>, b: seq<string>)
    ensures StripAll(a + b) == StripAll(a) + StripAll(b)
    decreases |a|
  {
    if a == [] {
      assert a + b == b;
    } else {
      assert (a + b)[0] == a[0] && (a + b)[1..] == a[1..] + b;
      StripAllAppend(a[1..], b);
    }
  }

  /** What every chunk is: non-empty, within the size limit and already
      stripped. */
  predicate Clean(c: string, max: nat) {
    c != "" && |c| <= max && Strip(c) == c
  }

  /** `filter(None, [p.strip() for p in pieces])`: what the pieces of one
      sentence leave in the output. */
  function Tidy(ps: seq<string>): (r: seq<string>)
    ensures forall k :: 0 <= k < |r| ==> r[k] != "" && Strip(r[k]) == r[k]
  {
    var r := NonEmpty(StripAll(ps));
    forall k | 0 <= k < |r| ensures Strip(r[k]) == r[k] {
      StripOfStripped(r[k]);
    }
    r
  }

  /** Pieces that fit leave chunks that fit. */
  lemma TidyFits(ps: seq<string>, max: nat)
    requires forall j :: 0 <= j < |ps| ==> |ps[j]| <= max
    ensures forall k :: 0 <= k < |Tidy(ps)| ==> Clean(Tidy(ps)[k], max)
  {
    var r := Tidy(ps);
    forall k | 0 <= k < |r| ensures |r[k]| <= max {
      var j :| 0 <= j < |ps| && r[k] == StripAll(ps)[j];
    }
  }

  /** The chunks one sentence contributes. */
  function SentenceChunks(s: string, max: nat): (r: seq<string>)
    requires SentencePieces(s, max).Some?
    ensures forall k :: 0 <= k < |r| ==> Clean(r[k], max)
  {
    TidyFits(SentencePieces(s, max).value, max);
    Tidy(SentencePieces(s, max).value)
  }

  predicate Chunkable(sentences: seq<string>, max: nat) {
    forall i :: 0 <= i < |sentences| ==> SentencePieces(sentences[i], max).Some?
  }

  /** The chunks of a run of sentences: each sentence's own chunks, one
      sentence after another. */
  function ChunksOf(sentences: seq<string>, max: nat): (r: seq<string>)
    requires Chunkable(sentences, max)
    ensures forall k :: 0 <= k < |r| ==> Clean(r[k], max)
    decreases |sentences|
  {
    if sentences == [] then []
    else
      var n := |sentences| - 1;
      ChunksOf(sentences[..n], max) + SentenceChunks(sentences[n], max)
  }

  /** One more sentence adds its own chunks behind the earlier ones. */
  lemma ChunksOfSnoc(sentences: seq<string>, i: nat, max: nat)
    requires i < |sentences| && Chunkable(sentences, max)
    ensures Chunkable(sentences[..i], max) && Chunkable(sentences[..i + 1], max)
    ensures ChunksOf(sentences[..i + 1], max) == ChunksOf(sentences[..i], max) + SentenceChunks(sentences[i], max)
  {
    assert sentences[..i + 1][..i] == sentences[..i];
  }

  lemma ConcatAssoc(a: seq<string>, b: seq<string>, c: seq<string>)
    ensures a + (b + c) == (a + b) + c
  {
  }

  /** One turn of the inner `while`: the sub-chunk is split off and the
      remainder still has a finite cut. */
  lemma CutStep(s: string, max: nat)
    requires |s| > max && SentencePieces(s, max).Some?
    ensures var cut := SplitLongSentence(s, max);
            && SentencePieces(cut.1, max).Some?
            && |cut.1| < |s|
            && Tidy(SentencePieces(s, max).value) == NonEmpty([Strip(cut.0)]) + Tidy(SentencePieces(cut.1, max).value)
  {
    var cut := SplitLongSentence(s, max);
    var rest := SentencePieces(cut.1, max).value;
    assert SentencePieces(s, max).value == [cut.0] + rest;
    StripAllAppend([cut.0], rest);
    NonEmptyAppend([Strip(cut.0)], StripAll(rest));
  }

  /** A sentence that already fits is one chunk, itself. */
  lemma FittingSentence(s: string, max: nat)
    requires Clean(s, max)
    ensures SentencePieces(s, max) == Some([s])
    ensures SentenceChunks(s, max) == [s]
  {
    assert StripAll([s]) == [s];
    assert NonEmpty([s]) == [s] + NonEmpty([]);
    assert Tidy([s]) == [s];
  }

  /** Sentences are never merged: two sentences that would fit into one
      chunk together still come out as two chunks. */
  lemma {:induction false} SentencesNeverMerged(a: string, b: string, max: nat)
    requires Clean(a, max) && Clean(b, max)
    ensures Chunkable([a, b], max)
    ensures ChunksOf([a, b], max) == [a, b]
  {
    FittingSentence(a, max);
    FittingSentence(b, max);
    assert [a, b][..1] == [a];
    assert [a][..0] == [];
    assert ChunksOf([a], max) == [a];
  }

  /** `as_chunks` as a total function: `None` exactly when the Python loop
      would not terminate. */
  function AsChunks(text: string, max: nat): (r: Option<seq<string>>)
    ensures r.Some? <==> Chunkable(Sentences(text), max)
    ensures r.Some? ==> forall k :: 0 <= k < |r.value| ==> Clean(r.value[k], max)
  {
    if Chunkable(Sentences(text), max) then Some(ChunksOf(Sentences(text), max)) else None
  }

  /** The inner `while len(current_chunk) > max_chunk_size` loop of
      `as_chunks`: sub-chunks are appended until the remainder fits, and
      together with the remainder they are the sentence's own chunks. */
  method CutSentence(raw: seq<string>, sentence: string, max: nat) returns (raw': seq<string>, current: string)
    requires SentencePieces(sentence, max).Some?
    ensures |current| <= max
    ensures NonEmpty(raw' + [Strip(current)]) == NonEmpty(raw) + SentenceChunks(sentence, max)
  {
    raw' := raw;
    current := sentence;
    ghost var goal := NonEmpty(raw) + SentenceChunks(sentence, max);
    while |current| > max
      invariant SentencePieces(current, max).Some?
      invariant NonEmpty(raw') + Tidy(SentencePieces(current, max).value) == goal
      decreases |current|
    {
      var cut := SplitLongSentence(current, max);
      CutStep(current, max);
      NonEmptyAppend(raw', [Strip(cut.0)]);
      ConcatAssoc(NonEmpty(raw'), NonEmpty([Strip(cut.0)]), Tidy(SentencePieces(cut.1, max).value));
      raw' := raw' + [Strip(cut.0)];
      current := cut.1;
    }
    assert SentencePieces(current, max).value == [current];
    NonEmptyAppend(raw', [Strip(current)]);
  }

  /** An empty string vanishes in `filter(None, ...)`. */
  lemma DropEmpty(raw: seq<string>)
    ensures NonEmpty(raw + [""]) == NonEmpty(raw)
  {
    NonEmptyAppend(raw, [""]);
    assert [""][1..] == [];
  }

  /** The final `if current_chunk:` append changes nothing once empty
      strings are filtered out. */
  lemma FinalFlush(raw: seq<string>, current: string)
    ensures NonEmpty(if current != "" then raw + [Strip(current)] else raw) == NonEmpty(raw + [Strip(current)])
  {
    if current == "" {
      assert Strip(current) == "";
      DropEmpty(raw);
    }
  }

  /** The `for sentence in sentences` loop of `as_chunks`: every sentence
      first flushes the previous chunk, then is cut while it is too long.
      The result is the sentences' chunks one after another: no chunk ever
      spans two sentences. */
  method ChunkSentences(sentences: seq<string>, max: nat) returns (chunks: seq<string>)
    requires Chunkable(sentences, max)
    ensures chunks == ChunksOf(sentences, max)
  {
    var raw: seq<string> := [];
    var current := "";
    var i := 0;
    while i < |sentences|
      invariant 0 <= i <= |sentences|
      invariant NonEmpty(raw + [Strip(current)]) == ChunksOf(sentences[..i], max)
    {
      ChunksOfSnoc(sentences, i, max);
      NonEmptyAppend(raw, [Strip(current)]);
      raw, current := CutSentence(raw + [Strip(current)], sentences[i], max);
      i := i + 1;
    }
    assert sentences[..i] == sentences;
    FinalFlush(raw, current);
    if current != "" {
      raw := raw + [Strip(current)];
    }
    chunks := NonEmpty(raw);
  }

  /** A reply of two sentences that would fit into one chunk together
      still comes back as two chunks, despite the comment in the loop
      about adding the next sentence. */
  lemma TwoSentenceReply(a: string, b: string, max: nat)
    requires Clean(a, max) && Clean(b, max) && NoBreak(a) && NoBreak(b)
    requires SentenceEnd(a[|a| - 1])
    ensures AsChunks(a + " " + b, max) == Some([a, b])
  {
    TwoSentences(a, b);
    SentencesNeverMerged(a, b, max);
  }

  /** `as_chunks` written as the Python code: split into sentences, then
      run the loop; it agrees with the total function wherever the loop
      ends. */
  method AsChunksLoop(text: string, max: nat) returns (chunks: seq<string>)
    requires Chunkable(Sentences(text), max)
    ensures AsChunks(text, max) == Some(chunks)
  {
    chunks := ChunkSentences(Sentences(text), max);
  }

  /** The cut a sentence gets when no separator is in reach, in the
      corrected chunker: a hard cut after `max` characters (after one
      character when `max` is 0, so that the remainder always shrinks). */
  function HardCut(max: nat): (m: nat)
    ensures m >= 1 && (max >= 1 ==> m == max)
  {
    if max == 0 then 1 else max
  }

  /** The pieces of one sentence in the corrected chunker: the same cuts as
      `_split_long_sentence` while a separator is in reach, and a hard cut
      otherwise. It is total, and the pieces fit whenever `max >= 1`. */
  function CorrectedPieces(s: string, max: nat): (r: seq<string>)
    ensures |r| >= 1
    ensures max >= 1 ==> forall k :: 0 <= k < |r| ==> |r[k]| <= max
    decreases |s|
  {
    if |s| <= max then [s]
    else
      var p := SplitPoint(s, max);
      if p >= 0 then
        var cut := SplitLongSentence(s, max);
        [cut.0] + CorrectedPieces(cut.1, max)
      else
        var m := HardCut(max);
        [s[..m]] + CorrectedPieces(s[m..], max)
  }

  /** Wherever the loop as written terminates, the corrected pieces are
      exactly its pieces. */
  lemma {:induction false} CorrectedPiecesAgree(s: string, max: nat)
    requires SentencePieces(s, max).Some?
    ensures CorrectedPieces(s, max) == SentencePieces(s, max).value
    decreases |s|
  {
    if |s| > max {
      var cut := SplitLongSentence(s, max);
      CorrectedPiecesAgree(cut.1, max);
    }
  }

  /** The chunks of a run of sentences in the corrected chunker. */
  function CorrectedChunksOf(sentences: seq<string>, max: nat): (r: seq<string>)
    ensures forall k :: 0 <= k < |r| ==> r[k] != "" && Strip(r[k]) == r[k]
    ensures max >= 1 ==> forall k :: 0 <= k < |r| ==> Clean(r[k], max)
    decreases |sentences|
  {
    if sentences == [] then []
    else
      var n := |sentences| - 1;
      var own := Tidy(CorrectedPieces(sentences[n], max));
      if max >= 1 then TidyFits(CorrectedPieces(sentences[n], max), max); CorrectedChunksOf(sentences[..n], max) + own
      else CorrectedChunksOf(sentences[..n], max) + own
  }

  /** `as_chunks` with the hard cut: it always ends, and for any positive
      chunk size every chunk fits. */
  function AsChunksCorrected(text: string, max: nat): (r: seq<string>)
    ensures max >= 1 ==> forall k :: 0 <= k < |r| ==> Clean(r[k], max)
  {
    CorrectedChunksOf(Sentences(text), max)
  }

  /** The corrected chunker is a conservative fix: whenever `as_chunks`
      as written terminates, both give the same chunks. */
  lemma {:induction false} CorrectedChunksAgree(sentences: seq<string>, max: nat)
    requires Chunkable(sentences, max)
    ensures CorrectedChunksOf(sentences, max) == ChunksOf(sentences, max)
    decreases |sentences|
  {
    if sentences != [] {
      var n := |sentences| - 1;
      assert Chunkable(sentences[..n], max);
      CorrectedChunksAgree(sentences[..n], max);
      CorrectedPiecesAgree(sentences[n], max);
    }
  }

  /** A concrete input that shows the fault: a 51-character sentence with
      no comma or hyphen never leaves the loop as written at the default
      size, while the corrected chunker cuts it in two. */
  lemma {:induction false} LongWordShowsTheFault(s: string)
    requires |s| == DefaultChunkSize + 1 && forall j :: 0 <= j < |s| ==> s[j] == 'a'
    ensures SentencePieces(s, DefaultChunkSize).None?
    ensures CorrectedPieces(s, DefaultChunkSize) == [s[..DefaultChunkSize], s[DefaultChunkSize..]]
  {
    StuckSplitRepeats(s, DefaultChunkSize);
    assert |s[DefaultChunkSize..]| == 1;
  }
}
