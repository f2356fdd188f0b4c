// The manuscript chunker: heading split, numbered-section split, and the
// length-based hard split that keeps every chunk within the size limit.
module Chunker {
  import opened TextUtil

  /** MAX_CHUNK_CHARS when the environment does not override it. */
  const DefaultMaxChunkChars: nat := 800

  const ChapterPrefixes: seq<string> :=
    ["Chapter ", "CHAPTER ", "Unit ", "UNIT ", "Module ", "MODULE ", "Part ", "PART "]

  /** The two line-start patterns the chunker cuts at. */
  datatype Heading = ChapterHeading | NumberedHeading

  predicate StartsWithChapterWord(t: string)
  {
    exists k :: 0 <= k < |ChapterPrefixes| && StartsWith(t, ChapterPrefixes[k])
  }

  /** `\d+\.\s+` at the start of t. */
  predicate StartsWithNumber(t: string)
    decreases |t|
  {
    |t| >= 1 && IsDigit(t[0]) &&
    ((|t| >= 3 && t[1] == '.' && IsSpace(t[2])) || StartsWithNumber(t[1..]))
  }

  /** A zero-width split point: a line start (MULTILINE `^`) followed by the pattern. */
  predicate IsCut(h: Heading, s: string, i: nat)
  {
    i < |s| && (i == 0 || s[i - 1] == '\n') &&
    match h
    case ChapterHeading => StartsWithChapterWord(s[i..])
    case NumberedHeading => StartsWithNumber(s[i..])
  }

  /** re.split on the lookahead: the pieces between consecutive cut points. */
  function Pieces(h: Heading, s: string, from: nat, i: nat): (r: seq<string>)
    requires from <= i <= |s|
    ensures |r| >= 1
    decreases |s| - i
  {
    if i == |s| then [s[from..]]
    else if IsCut(h, s, i) then [s[from..i]] + Pieces(h, s, i, i + 1)
    else Pieces(h, s, from, i + 1)
  }

  /** The pieces, concatenated, are exactly the text they were cut from. */
  lemma {:induction false} PiecesConcat(h: Heading, s: string, from: nat, i: nat)
    requires from <= i <= |s|
    ensures Concat(Pieces(h, s, from, i)) == s[from..]
    decreases |s| - i
  {
    if i == |s| {
      ConcatSingle(s[from..]);
    } else if IsCut(h, s, i) {
      PiecesConcat(h, s, i, i + 1);
      assert s[from..] == s[from..i] + s[i..];
    } else {
      PiecesConcat(h, s, from, i + 1);
    }
  }

  /** `[p.strip() for p in parts if p.strip()]` */
  function Clean(parts: seq<string>): (r: seq<string>)
    ensures |r| <= |parts|
    ensures forall k :: 0 <= k < |r| ==> r[k] != "" && !IsSpace(r[k][0]) && !IsSpace(r[k][|r[k]| - 1])
  {
    if parts == [] then []
    else if Strip(parts[0]) != "" then
      StripEdges(parts[0]);
      [Strip(parts[0])] + Clean(parts[1..])
    else Clean(parts[1..])
  }

  /** Cleaning drops only whitespace: blank pieces and the space around the others. */
  lemma {:induction false} CleanNonSpace(parts: seq<string>)
    ensures NonSpace(Concat(Clean(parts))) == NonSpace(Concat(parts))
  {
    if parts != [] {
      CleanNonSpace(parts[1..]);
      NonSpaceStrip(parts[0]);
      NonSpaceAppend(parts[0], Concat(parts[1..]));
      if Strip(parts[0]) != "" {
        NonSpaceAppend(Strip(parts[0]), Concat(Clean(parts[1..])));
      } else {
        NonSpaceBlank(parts[0]);
        StripBlank(parts[0]);
      }
    }
  }

  /** _split_by_chapter / _split_by_numbered_sections. */
  function SplitByHeading(h: Heading, text: string): (r: seq<string>)
    ensures forall k :: 0 <= k < |r| ==> r[k] != "" && !IsSpace(r[k][0]) && !IsSpace(r[k][|r[k]| - 1])
    ensures NonSpace(Concat(r)) == NonSpace(text)
  {
    PiecesConcat(h, text, 0, 0);
    CleanNonSpace(Pieces(h, text, 0, 0));
    Clean(Pieces(h, text, 0, 0))
  }

  /** The heading split is case-sensitive: only a capitalised or all-caps
      keyword starts a chapter, so "chapter 2" at a line start is never a cut. */
  lemma ChapterCutsAreCapitalised(s: string, i: nat)
    requires IsCut(ChapterHeading, s, i)
    ensures s[i] in {'C', 'U', 'M', 'P'}
  {
    var k :| 0 <= k < |ChapterPrefixes| && StartsWith(s[i..], ChapterPrefixes[k]);
    assert s[i..][0] == ChapterPrefixes[k][0];
  }

  /** The strategy cascade: headings, then numbered sections, then the whole text. */
  function Candidates(text: string): (r: seq<string>)
    ensures |r| >= 1
    ensures NonSpace(Concat(r)) == NonSpace(text)
    ensures |SplitByHeading(ChapterHeading, text)| > 1 ==> r == SplitByHeading(ChapterHeading, text)
    ensures (|SplitByHeading(ChapterHeading, text)| <= 1 && |SplitByHeading(NumberedHeading, text)| > 1)
              ==> r == SplitByHeading(NumberedHeading, text)
    ensures r == [text] <== |SplitByHeading(ChapterHeading, text)| <= 1 && |SplitByHeading(NumberedHeading, text)| <= 1
  {
    var a := SplitByHeading(ChapterHeading, text);
    if |a| > 1 then a
    else
      var b := SplitByHeading(NumberedHeading, text);
      if |b| > 1 then b
      else
        ConcatSingle(text);
        [text]
  }

  // ---- Sentence split: re.split(r"(?<=[.!?])\s+(?=[A-Za-z])", para) ----

  /** End of the whitespace run that starts at i. */
  function SpaceRunEnd(p: string, i: nat): (j: nat)
    requires i <= |p|
    ensures i <= j <= |p| && IsBlank(p[i..j]) && (j == |p| || !IsSpace(p[j]))
    decreases |p| - i
  {
    if i < |p| && IsSpace(p[i]) then
      var j := SpaceRunEnd(p, i + 1);
      assert p[i..j] == [p[i]] + p[i + 1..j];
      j
    else i
  }

  /** A sentence break starts at i: after . ! or ?, a whitespace run, then an ASCII letter. */
  predicate BreakAt(p: string, i: nat)
  {
    0 < i < |p| && p[i - 1] in {'.', '!', '?'} && IsSpace(p[i]) &&
    SpaceRunEnd(p, i) < |p| && IsAsciiLetter(p[SpaceRunEnd(p, i)])
  }

  function SentencePieces(p: string, from: nat, i: nat): (r: seq<string>)
    requires from <= i <= |p|
    decreases |p| - i
  {
    if i == |p| then [p[from..]]
    else if BreakAt(p, i) then [p[from..i]] + SentencePieces(p, SpaceRunEnd(p, i), SpaceRunEnd(p, i))
    else SentencePieces(p, from, i + 1)
  }

  function Sentences(p: string): seq<string>
  {
    SentencePieces(p, 0, 0)
  }

  /** Splitting into sentences removes only the whitespace between them. */
  lemma {:induction false} SentencePiecesNonSpace(p: string, from: nat, i: nat)
    requires from <= i <= |p|
    ensures NonSpace(Concat(SentencePieces(p, from, i))) == NonSpace(p[from..])
    decreases |p| - i
  {
    if i == |p| {
      ConcatSingle(p[from..]);
    } else if BreakAt(p, i) {
      var j := SpaceRunEnd(p, i);
      var rest := SentencePieces(p, j, j);
      assert SentencePieces(p, from, i) == [p[from..i]] + rest;
      SentencePiecesNonSpace(p, j, j);
      NonSpaceConcatCons(p[from..i], rest);
      SliceThree(p, from, i, j);
      NonSpaceGap(p[from..i], p[i..j], p[j..]);
    } else {
      SentencePiecesNonSpace(p, from, i + 1);
    }
  }

  lemma {:induction false} NonSpaceConcatCons(x: string, xs: seq<string>)
    ensures NonSpace(Concat([x] + xs)) == NonSpace(x) + NonSpace(Concat(xs))
  {
    ConcatAppend([x], xs);
    ConcatSingle(x);
    NonSpaceAppend(x, Concat(xs));
  }

  /** Whitespace between two texts adds nothing to their content. */
  lemma {:induction false} NonSpaceGap(a: string, gap: string, c: string)
    requires IsBlank(gap)
    ensures NonSpace(a + gap + c) == NonSpace(a) + NonSpace(c)
  {
    NonSpaceAppend(a + gap, c);
    NonSpaceAppend(a, gap);
    NonSpaceBlank(gap);
  }

  /** Every chunk holds at most maxChars characters. */
  predicate AllWithin(xs: seq<string>, maxChars: nat)
  {
    forall k :: 0 <= k < |xs| ==> |xs[k]| <= maxChars
  }

  lemma {:induction false} WithinPrefix(xs: seq<string>, i: nat, maxChars: nat)
    requires i < |xs|
    ensures AllWithin(xs[..i + 1], maxChars) <==> AllWithin(xs[..i], maxChars) && |xs[i]| <= maxChars
  {
    assert xs[..i + 1] == xs[..i] + [xs[i]];
  }

  /** Appending chunks within the limit keeps the bound and the content. */
  lemma {:induction false} AppendChunks(xs: seq<string>, ys: seq<string>, maxChars: nat)
    requires AllWithin(xs, maxChars) && AllWithin(ys, maxChars)
    ensures AllWithin(xs + ys, maxChars)
    ensures NonSpace(Concat(xs + ys)) == NonSpace(Concat(xs)) + NonSpace(Concat(ys))
  {
    NonSpaceConcatAppend(xs, ys);
  }

  /** Appending one chunk within the limit keeps the bound and the content. */
  lemma {:induction false} AppendChunk(xs: seq<string>, x: string, maxChars: nat)
    requires AllWithin(xs, maxChars) && |x| <= maxChars
    ensures AllWithin(xs + [x], maxChars)
    ensures NonSpace(Concat(xs + [x])) == NonSpace(Concat(xs)) + NonSpace(x)
  {
    NonSpaceConcatSnoc(xs, x);
  }

  /** Flushing the open piece: it is appended stripped. */
  lemma {:induction false} FlushStripped(pieces: seq<string>, open: string, maxChars: nat)
    requires AllWithin(pieces, maxChars) && |Strip(open)| <= maxChars
    ensures AllWithin(pieces + [Strip(open)], maxChars)
    ensures NonSpace(Concat(pieces + [Strip(open)])) == NonSpace(Concat(pieces)) + NonSpace(open)
  {
    AppendChunk(pieces, Strip(open), maxChars);
    NonSpaceStrip(open);
  }

  /** Flushing the open chunk: its paragraphs are appended joined by blank lines. */
  lemma {:induction false} FlushJoined(chunks: seq<string>, current: seq<string>, maxChars: nat)
    requires AllWithin(chunks, maxChars) && |Join("\n\n", current)| <= maxChars
    ensures AllWithin(chunks + [Join("\n\n", current)], maxChars)
    ensures NonSpace(Concat(chunks + [Join("\n\n", current)])) == NonSpace(Concat(chunks)) + NonSpace(Concat(current))
  {
    assert IsBlank("\n\n");
    NonSpaceJoin("\n\n", current);
    AppendChunk(chunks, Join("\n\n", current), maxChars);
  }

  /** `for i in range(0, len(sentence), max_chars)`: fixed-width slices. */
  method HardSlice(sentence: string, maxChars: nat) returns (slices: seq<string>)
    requires maxChars >= 1
    ensures AllWithin(slices, maxChars)
    ensures Concat(slices) == sentence
  {
    slices := [];
    var pos := 0;
    while pos < |sentence|
      invariant 0 <= pos <= |sentence|
      invariant AllWithin(slices, maxChars)
      invariant Concat(slices) == sentence[..pos]
    {
      var end := if pos + maxChars < |sentence| then pos + maxChars else |sentence|;
      ConcatAppend(slices, [sentence[pos..end]]);
      ConcatSingle(sentence[pos..end]);
      assert sentence[..end] == sentence[..pos] + sentence[pos..end];
      slices := slices + [sentence[pos..end]];
      pos := end;
    }
    assert sentence[..pos] == sentence;
  }

  /** One iteration of the sentence-packing loop: the sentence joins the
      open piece, or the open piece is flushed and the sentence starts a new
      one (or is sliced when even alone it is too long). */
  method PackSentence(pieces: seq<string>, paraCurrent: string, sentence: string, maxChars: nat)
    returns (pieces': seq<string>, paraCurrent': string)
    requires maxChars >= 1
    requires AllWithin(pieces, maxChars)
    requires |Strip(paraCurrent)| <= maxChars
    ensures AllWithin(pieces', maxChars)
    ensures |Strip(paraCurrent')| <= maxChars
    ensures NonSpace(Concat(pieces')) + NonSpace(paraCurrent')
            == NonSpace(Concat(pieces)) + NonSpace(paraCurrent) + NonSpace(sentence)
  {
    var spaced := sentence + " ";
    NonSpaceAppend(sentence, " ");
    assert NonSpace(spaced) == NonSpace(sentence);
    if |paraCurrent| + |sentence| + 1 <= maxChars {
      var add := Strip(spaced);
      NonSpaceStrip(spaced);
      var grown := paraCurrent + add;
      NonSpaceAppend(paraCurrent, add);
      assert |Strip(grown)| <= |grown| <= maxChars;
      pieces', paraCurrent' := pieces, grown;
    } else {
      pieces' := pieces;
      if paraCurrent != "" {
        FlushStripped(pieces, paraCurrent, maxChars);
        pieces' := pieces + [Strip(paraCurrent)];
      } else {
        assert NonSpace(paraCurrent) == "";
      }
      assert NonSpace(Concat(pieces')) == NonSpace(Concat(pieces)) + NonSpace(paraCurrent);
      if |sentence| > maxChars {
        var slices := HardSlice(sentence, maxChars);
        AppendChunks(pieces', slices, maxChars);
        pieces', paraCurrent' := pieces' + slices, "";
      } else {
        StripShortensTrailingSpace(spaced);
        paraCurrent' := spaced;
      }
    }
  }

  /** The sentence-packing loop for one paragraph longer than maxChars. */
  method PackSentences(para: string, maxChars: nat) returns (pieces: seq<string>)
    requires maxChars >= 1
    ensures AllWithin(pieces, maxChars)
    ensures NonSpace(Concat(pieces)) == NonSpace(para)
  {
    var sentences := Sentences(para);
    pieces := [];
    var paraCurrent := "";
    var j := 0;
    while j < |sentences|
      invariant 0 <= j <= |sentences|
      invariant AllWithin(pieces, maxChars)
      invariant |Strip(paraCurrent)| <= maxChars
      invariant NonSpace(Concat(pieces)) + NonSpace(paraCurrent) == NonSpace(Concat(sentences[..j]))
    {
      assert sentences[..j + 1] == sentences[..j] + [sentences[j]];
      NonSpaceConcatSnoc(sentences[..j], sentences[j]);
      pieces, paraCurrent := PackSentence(pieces, paraCurrent, sentences[j], maxChars);
      j := j + 1;
    }
    if paraCurrent != "" {
      FlushStripped(pieces, paraCurrent, maxChars);
      pieces := pieces + [Strip(paraCurrent)];
    } else {
      assert NonSpace(paraCurrent) == "";
    }
    assert sentences[..j] == sentences;
    SentencePiecesNonSpace(para, 0, 0);
    assert para[0..] == para;
  }

  /** What the paragraph loop keeps about the open chunk: its paragraphs
      and their joined length plus 2. */
  predicate OpenChunk(current: seq<string>, currentLen: nat, maxChars: nat)
  {
    (current == [] ==> currentLen == 0) &&
    (current != [] ==> currentLen == |Join("\n\n", current)| + 2 && |Join("\n\n", current)| <= maxChars)
  }

  /** A paragraph that fits joins the open chunk. */
  lemma {:induction false} GrowOpen(current: seq<string>, currentLen: nat, para: string, maxChars: nat)
    requires OpenChunk(current, currentLen, maxChars) && currentLen + |para| <= maxChars
    ensures OpenChunk(current + [para], currentLen + |para| + 2, maxChars)
    ensures NonSpace(Concat(current + [para])) == NonSpace(Concat(current)) + NonSpace(para)
  {
    JoinAppend("\n\n", current, para);
    NonSpaceConcatSnoc(current, para);
  }

  /** One iteration of the paragraph loop of _split_by_length.  `current` is
      the open chunk's paragraphs and `currentLen` their joined length plus 2. */
  method PackParagraph(chunks: seq<string>, current: seq<string>, currentLen: nat, para: string, maxChars: nat)
    returns (chunks': seq<string>, current': seq<string>, currentLen': nat)
    requires maxChars >= 1
    requires AllWithin(chunks, maxChars)
    requires OpenChunk(current, currentLen, maxChars)
    ensures AllWithin(chunks', maxChars)
    ensures OpenChunk(current', currentLen', maxChars)
    ensures NonSpace(Concat(chunks')) + NonSpace(Concat(current'))
            == NonSpace(Concat(chunks)) + NonSpace(Concat(current)) + NonSpace(para)
  {
    if currentLen + |para| <= maxChars {
      GrowOpen(current, currentLen, para, maxChars);
      chunks', current', currentLen' := chunks, current + [para], currentLen + |para| + 2;
    } else {
      chunks' := chunks;
      if current != [] {
        FlushJoined(chunks, current, maxChars);
        chunks' := chunks + [Join("\n\n", current)];
      } else {
        assert Concat(current) == "";
      }
      assert NonSpace(Concat(chunks')) == NonSpace(Concat(chunks)) + NonSpace(Concat(current));
      if |para| > maxChars {
        var pieces := PackSentences(para, maxChars);
        AppendChunks(chunks', pieces, maxChars);
        chunks', current', currentLen' := chunks' + pieces, [], 0;
      } else {
        ConcatSingle(para);
        assert Join("\n\n", [para]) == para;
        current', currentLen' := [para], |para| + 2;
      }
    }
  }

  /** _split_by_length: paragraph packing with the sentence fallback.  Every
      chunk is within the limit, and no non-whitespace character is lost,
      duplicated or reordered. */
  method SplitByLength(text: string, maxChars: nat) returns (chunks: seq<string>)
    requires maxChars >= 1
    ensures AllWithin(chunks, maxChars)
    ensures NonSpace(Concat(chunks)) == NonSpace(text)
  {
    var paragraphs := Split(text, "\n\n");
    chunks := [];
    var current: seq<string> := [];
    var currentLen := 0;
    var k := 0;
    while k < |paragraphs|
      invariant 0 <= k <= |paragraphs|
      invariant AllWithin(chunks, maxChars)
      invariant OpenChunk(current, currentLen, maxChars)
      invariant NonSpace(Concat(chunks)) + NonSpace(Concat(current)) == NonSpace(Concat(paragraphs[..k]))
    {
      assert paragraphs[..k + 1] == paragraphs[..k] + [paragraphs[k]];
      NonSpaceConcatSnoc(paragraphs[..k], paragraphs[k]);
      chunks, current, currentLen := PackParagraph(chunks, current, currentLen, paragraphs[k], maxChars);
      k := k + 1;
    }
    if current != [] {
      FlushJoined(chunks, current, maxChars);
      chunks := chunks + [Join("\n\n", current)];
    } else {
      assert Concat(current) == "";
    }
    assert paragraphs[..k] == paragraphs;
    SplitContent(text);
  }

  /** The paragraphs of a text hold all of its content. */
  lemma {:induction false} SplitContent(text: string)
    ensures NonSpace(Concat(Split(text, "\n\n"))) == NonSpace(text)
  {
    assert IsBlank("\n\n");
    NonSpaceJoin("\n\n", Split(text, "\n\n"));
    JoinSplit(text, "\n\n");
  }

  /** One candidate of Strategy C: split by length when oversized, else kept. */
  method HardSplitOne(chunk: string, maxChars: nat) returns (piece: seq<string>)
    requires maxChars >= 1
    ensures AllWithin(piece, maxChars) && NonSpace(Concat(piece)) == NonSpace(chunk)
    ensures |chunk| <= maxChars ==> piece == [chunk]
  {
    if |chunk| > maxChars {
      piece := SplitByLength(chunk, maxChars);
    } else {
      ConcatSingle(chunk);
      piece := [chunk];
    }
  }

  /** When every candidate fits, the output is the candidates themselves. */
  predicate KeptVerbatim(out: seq<string>, candidates: seq<string>, maxChars: nat)
  {
    AllWithin(candidates, maxChars) ==>
      |out| == |candidates| && forall k :: 0 <= k < |out| ==> out[k] == candidates[k]
  }

  /** One candidate of Strategy C: what it adds keeps the loop's invariants. */
  lemma {:induction false} HardSplitStep(candidates: seq<string>, i: nat, done: seq<string>, piece: seq<string>, maxChars: nat)
    requires i < |candidates|
    requires AllWithin(done, maxChars) && NonSpace(Concat(done)) == NonSpace(Concat(candidates[..i]))
    requires KeptVerbatim(done, candidates[..i], maxChars)
    requires AllWithin(piece, maxChars) && NonSpace(Concat(piece)) == NonSpace(candidates[i])
    requires |candidates[i]| <= maxChars ==> piece == [candidates[i]]
    ensures AllWithin(done + piece, maxChars)
    ensures NonSpace(Concat(done + piece)) == NonSpace(Concat(candidates[..i + 1]))
    ensures KeptVerbatim(done + piece, candidates[..i + 1], maxChars)
  {
    assert candidates[..i + 1] == candidates[..i] + [candidates[i]];
    NonSpaceConcatSnoc(candidates[..i], candidates[i]);
    WithinPrefix(candidates, i, maxChars);
    AppendChunks(done, piece, maxChars);
    if AllWithin(candidates[..i + 1], maxChars) {
      assert piece == [candidates[i]];
      assert forall k :: 0 <= k < i ==> (done + piece)[k] == done[k];
    }
  }

  /** What one candidate became: chunks within the limit holding its
      content, and the candidate itself when it already fits. */
  predicate PieceFor(candidate: string, piece: seq<string>, maxChars: nat)
  {
    AllWithin(piece, maxChars) && NonSpace(Concat(piece)) == NonSpace(candidate) &&
    (|candidate| <= maxChars ==> piece == [candidate])
  }

  /** The pieces one after another. */
  function Flatten(pieces: seq<seq<string>>): seq<string>
  {
    if pieces == [] then [] else Flatten(pieces[..|pieces| - 1]) + pieces[|pieces| - 1]
  }

  /** The first i candidates became `pieces`, flattened into `out`. */
  predicate PiecesSoFar(candidates: seq<string>, i: nat, pieces: seq<seq<string>>, out: seq<string>, maxChars: nat)
  {
    i <= |candidates| && |pieces| == i && out == Flatten(pieces) &&
    forall j :: 0 <= j < i ==> PieceFor(candidates[j], pieces[j], maxChars)
  }

  lemma {:induction false} PiecesStep(candidates: seq<string>, i: nat, pieces: seq<seq<string>>, out: seq<string>,
                                      piece: seq<string>, maxChars: nat)
    requires i < |candidates| && PiecesSoFar(candidates, i, pieces, out, maxChars)
    requires PieceFor(candidates[i], piece, maxChars)
    ensures PiecesSoFar(candidates, i + 1, pieces + [piece], out + piece, maxChars)
  {
    assert (pieces + [piece])[..i] == pieces;
  }

  /** Strategy C of chunk_manuscript: every oversized candidate is split by
      length, the others pass through verbatim. */
  method HardSplitAll(candidates: seq<string>, maxChars: nat)
    returns (finalChunks: seq<string>, ghost pieces: seq<seq<string>>)
    requires maxChars >= 1
    ensures |pieces| == |candidates| && finalChunks == Flatten(pieces)
    ensures forall i :: 0 <= i < |candidates| ==> PieceFor(candidates[i], pieces[i], maxChars)
    ensures AllWithin(finalChunks, maxChars)
    ensures NonSpace(Concat(finalChunks)) == NonSpace(Concat(candidates))
    ensures AllWithin(candidates, maxChars) ==> finalChunks == candidates
  {
    finalChunks := [];
    pieces := [];
    var i := 0;
    assert candidates[..0] == [];
    while i < |candidates|
      invariant 0 <= i <= |candidates|
      invariant AllWithin(finalChunks, maxChars)
      invariant NonSpace(Concat(finalChunks)) == NonSpace(Concat(candidates[..i]))
      invariant KeptVerbatim(finalChunks, candidates[..i], maxChars)
      invariant PiecesSoFar(candidates, i, pieces, finalChunks, maxChars)
    {
      var piece := HardSplitOne(candidates[i], maxChars);
      HardSplitStep(candidates, i, finalChunks, piece, maxChars);
      PiecesStep(candidates, i, pieces, finalChunks, piece, maxChars);
      finalChunks := finalChunks + piece;
      pieces := pieces + [piece];
      i := i + 1;
    }
    assert candidates[..i] == candidates;
    assert AllWithin(candidates, maxChars) ==> finalChunks == candidates;
  }

  /** Reading the manuscript: a missing file raises FileNotFoundError. */
  datatype ChunkResult = ManuscriptNotFound | Chunks(chunks: seq<string>)

  /** chunk_manuscript: the cascade, then a hard split of every oversized
      candidate; candidates within the limit pass through verbatim. */
  method ChunkManuscript(file: Option<string>, maxChars: nat)
    returns (r: ChunkResult, ghost pieces: seq<seq<string>>)
    requires maxChars >= 1
    ensures file.None? <==> r.ManuscriptNotFound?
    ensures r.Chunks? ==> |pieces| == |Candidates(file.value)| && r.chunks == Flatten(pieces)
    ensures r.Chunks? ==> forall i :: 0 <= i < |pieces| ==> PieceFor(Candidates(file.value)[i], pieces[i], maxChars)
    ensures r.Chunks? ==> AllWithin(r.chunks, maxChars)
    ensures r.Chunks? ==> NonSpace(Concat(r.chunks)) == NonSpace(file.value)
    ensures (r.Chunks? && AllWithin(Candidates(file.value), maxChars))
              ==> r.chunks == Candidates(file.value)
  {
    if file.None? {
      return ManuscriptNotFound, [];
    }
    var text := file.value;
    var candidates := Candidates(text);
    var finalChunks;
    finalChunks, pieces := HardSplitAll(candidates, maxChars);
    return Chunks(finalChunks), pieces;
  }
}
