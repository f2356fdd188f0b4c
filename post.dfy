// The post-processing passes over the compiled body and the chapter list:
// duplicate-paragraph removal, micro-chapter merging, syllabus-restart
// stripping and the two chapter filters.  The similarity ratio and the
// chapter size estimate are parameters: the former stands for difflib's
// SequenceMatcher, the latter for the length of the chapter's JSON dump.
module PostProcessor {
  import opened TextUtil
  import opened JsonValue

  // ───────────── sequences ─────────────

  /** a is a subsequence of b: its elements occur in b in the same order. */
  predicate IsSubseq<T(==)>(a: seq<T>, b: seq<T>)
    decreases |b|
  {
    if a == [] then true
    else if b == [] then false
    else (a[|a| - 1] == b[|b| - 1] && IsSubseq(a[..|a| - 1], b[..|b| - 1])) || IsSubseq(a, b[..|b| - 1])
  }

  lemma {:induction false} SubseqSnoc<T>(a: seq<T>, b: seq<T>, x: T)
    requires IsSubseq(a, b)
    ensures IsSubseq(a + [x], b + [x]) && IsSubseq(a, b + [x])
  {
    assert (a + [x])[..|a|] == a && (b + [x])[..|b|] == b;
  }

  lemma {:induction false} SubseqRefl<T>(a: seq<T>)
    ensures IsSubseq(a, a)
    decreases |a|
  {
    if a != [] {
      SubseqRefl(a[..|a| - 1]);
    }
  }

  /** The elements of xs for which keep holds, in order (a list built by
      appending in a loop). */
  function Filter<T>(xs: seq<T>, keep: T -> bool): (r: seq<T>)
    ensures |r| <= |xs|
    decreases |xs|
  {
    if xs == [] then [] else Filter(xs[..|xs| - 1], keep) + (if keep(xs[|xs| - 1]) then [xs[|xs| - 1]] else [])
  }

  /** A filter keeps exactly the wanted elements and keeps them in order. */
  lemma {:induction false} FilterSpec<T>(xs: seq<T>, keep: T -> bool)
    ensures forall x :: x in Filter(xs, keep) <==> x in xs && keep(x)
    ensures IsSubseq(Filter(xs, keep), xs)
    decreases |xs|
  {
    if xs != [] {
      var init, last := xs[..|xs| - 1], xs[|xs| - 1];
      FilterSpec(init, keep);
      var f := Filter(init, keep);
      assert xs == init + [last];
      assert Filter(xs, keep) == f + (if keep(last) then [last] else []);
      forall x
        ensures x in Filter(xs, keep) <==> x in xs && keep(x)
      {
        assert x in xs <==> x in init || x == last;
      }
      SubseqSnoc(f, init, last);
      if keep(last) {
        assert Filter(xs, keep) == f + [last];
      } else {
        assert Filter(xs, keep) == f;
      }
    }
  }

  // ───────────── deduplicate_paragraphs ─────────────

  /** The end of the whitespace run that starts at j. */
  function RunEnd(s: string, j: nat): (k: nat)
    requires j <= |s|
    ensures j <= k <= |s| && (k == |s| || !IsSpace(s[k]))
    ensures forall t :: j <= t < k ==> IsSpace(s[t])
    decreases |s| - j
  {
    if j < |s| && IsSpace(s[j]) then RunEnd(s, j + 1) else j
  }

  /** The last newline in s[j..k], if any. */
  function LastNewline(s: string, j: nat, k: nat): (t: Option<nat>)
    requires j <= k <= |s|
    ensures t.Some? ==> j <= t.value < k && s[t.value] == '\n' && forall u :: t.value < u < k ==> s[u] != '\n'
    ensures t.None? ==> forall u :: j <= u < k ==> s[u] != '\n'
    decreases k - j
  {
    if k == j then None else if s[k - 1] == '\n' then Some(k - 1) else LastNewline(s, j, k - 1)
  }

  /** Where a match of `\n\s*\n` that starts at i ends: the greedy `\s*`
      backs off to the last newline of the whitespace run. */
  function MatchAt(s: string, i: nat): (e: Option<nat>)
    requires i < |s|
    ensures e.Some? ==> (i + 2 <= e.value <= |s| && s[i] == '\n' && s[e.value - 1] == '\n' &&
      forall t :: i <= t < e.value ==> IsSpace(s[t]))
  {
    if s[i] != '\n' then None
    else match LastNewline(s, i + 1, RunEnd(s, i + 1))
      case None => None
      case Some(t) => Some(t + 1)
  }

  /** The leftmost separator match at or after i. */
  function FirstMatch(s: string, i: nat): (m: Option<(nat, nat)>)
    requires i <= |s|
    ensures m.Some? ==> (i <= m.value.0 && m.value.0 + 2 <= m.value.1 <= |s| &&
      MatchAt(s, m.value.0) == Some(m.value.1))
    ensures m.Some? ==> forall u :: i <= u < m.value.0 ==> MatchAt(s, u).None?
    ensures m.None? ==> forall u :: i <= u < |s| ==> MatchAt(s, u).None?
    decreases |s| - i
  {
    if i == |s| then None
    else match MatchAt(s, i)
      case Some(e) => Some((i, e))
      case None => FirstMatch(s, i + 1)
  }

  /** A separator: two newlines with only whitespace between them. */
  predicate IsSeparator(sep: string)
  {
    |sep| >= 2 && sep[0] == '\n' && sep[|sep| - 1] == '\n' && IsBlank(sep)
  }

  /** re.split(r"\n\s*\n", s): the blocks, and the separators between them. */
  function SplitBlocks(s: string): (r: (seq<string>, seq<string>))
    ensures |r.0| == |r.1| + 1
    ensures forall k :: 0 <= k < |r.1| ==> IsSeparator(r.1[k])
    decreases |s|
  {
    match FirstMatch(s, 0)
    case None => ([s], [])
    case Some((a, b)) =>
      var rest := SplitBlocks(s[b..]);
      assert IsSeparator(s[a..b]) by {
        forall t | 0 <= t < |s[a..b]| ensures IsSpace(s[a..b][t]) { assert s[a..b][t] == s[a + t]; }
      }
      ([s[..a]] + rest.0, [s[a..b]] + rest.1)
  }

  /** Blocks and separators put back in alternation. */
  function Interleave(blocks: seq<string>, seps: seq<string>): string
    requires |blocks| == |seps| + 1
    decreases |seps|
  {
    if seps == [] then blocks[0] else blocks[0] + seps[0] + Interleave(blocks[1..], seps[1..])
  }

  /** The split loses nothing: blocks and separators rebuild the text. */
  lemma {:induction false} SplitBlocksRebuilds(s: string)
    ensures Interleave(SplitBlocks(s).0, SplitBlocks(s).1) == s
    decreases |s|
  {
    match FirstMatch(s, 0)
    case None =>
    case Some((a, b)) =>
      SplitBlocksRebuilds(s[b..]);
      var rest := SplitBlocks(s[b..]);
      var r := SplitBlocks(s);
      assert r.0[1..] == rest.0 && r.1[1..] == rest.1;
      assert s == s[..a] + s[a..b] + s[b..];
  }

  /** _similarity */
  function Similarity(a: string, b: string, ratio: (string, string) -> real): real
  {
    if a == "" || b == "" then 0.0 else ratio(Strip(a), Strip(b))
  }

  /** Whether a block follows the last kept one: blank blocks go, blocks
      under 100 stripped characters stay, and a longer one goes only when it
      is at least `threshold` similar to the previous kept block. */
  predicate Keeps(block: string, previous: string, threshold: real, ratio: (string, string) -> real)
  {
    var current := Strip(block);
    current != "" && (|current| < 100 || Similarity(current, Strip(previous), ratio) < threshold)
  }

  /** The indices of the kept blocks. */
  function KeptIdx(bs: seq<string>, threshold: real, ratio: (string, string) -> real): (idx: seq<nat>)
    requires |bs| >= 1
    ensures |idx| >= 1 && idx[0] == 0
    ensures forall k :: 0 <= k < |idx| ==> idx[k] < |bs|
    decreases |bs|
  {
    if |bs| == 1 then [0]
    else
      var idx := KeptIdx(bs[..|bs| - 1], threshold, ratio);
      if Keeps(bs[|bs| - 1], bs[idx[|idx| - 1]], threshold, ratio) then idx + [|bs| - 1] else idx
  }

  predicate Increasing(idx: seq<nat>)
  {
    forall k, l :: 0 <= k < l < |idx| ==> idx[k] < idx[l]
  }

  /** The kept blocks keep their order: the indices strictly increase. */
  lemma {:induction false} KeptInOrder(bs: seq<string>, threshold: real, ratio: (string, string) -> real)
    requires |bs| >= 1
    ensures Increasing(KeptIdx(bs, threshold, ratio))
    decreases |bs|
  {
    if |bs| > 1 {
      var init := bs[..|bs| - 1];
      KeptInOrder(init, threshold, ratio);
      var idx := KeptIdx(init, threshold, ratio);
      assert forall k :: 0 <= k < |idx| ==> idx[k] < |bs| - 1;
      var w := KeptIdx(bs, threshold, ratio);
      if w != idx {
        assert w == idx + [|bs| - 1];
        forall k, l | 0 <= k < l < |w|
          ensures w[k] < w[l]
        {
          if l == |w| - 1 {
            assert w[k] == idx[k];
          } else {
            assert w[k] == idx[k] && w[l] == idx[l];
          }
        }
      }
    }
  }

  function Pick(bs: seq<string>, idx: seq<nat>): (r: seq<string>)
    requires forall k :: 0 <= k < |idx| ==> idx[k] < |bs|
    ensures |r| == |idx| && forall k :: 0 <= k < |idx| ==> r[k] == bs[idx[k]]
  {
    seq(|idx|, k requires 0 <= k < |idx| => bs[idx[k]])
  }

  /** The kept indices of a prefix start the kept indices of the whole; the
      later ones lie beyond the prefix. */
  lemma {:induction false} KeptPrefix(bs: seq<string>, i: nat, threshold: real, ratio: (string, string) -> real)
    requires 1 <= i <= |bs|
    ensures var p := KeptIdx(bs[..i], threshold, ratio); var w := KeptIdx(bs, threshold, ratio);
      |p| <= |w| && w[..|p|] == p && forall k :: |p| <= k < |w| ==> w[k] >= i
    decreases |bs|
  {
    if i < |bs| {
      var init := bs[..|bs| - 1];
      assert init[..i] == bs[..i];
      KeptPrefix(init, i, threshold, ratio);
    } else {
      assert bs[..i] == bs;
    }
  }

  /** A later block is kept exactly when it passes the test against the last
      block kept before it. */
  lemma {:induction false} KeptRule(bs: seq<string>, i: nat, threshold: real, ratio: (string, string) -> real)
    requires 1 <= i < |bs|
    ensures var before := KeptIdx(bs[..i], threshold, ratio);
      i in KeptIdx(bs, threshold, ratio) <==> Keeps(bs[i], bs[before[|before| - 1]], threshold, ratio)
  {
    var before := KeptIdx(bs[..i], threshold, ratio);
    var keep := Keeps(bs[i], bs[before[|before| - 1]], threshold, ratio);
    var w := KeptIdx(bs, threshold, ratio);
    assert i in w <==> keep by {
      var u := KeptIdx(bs[..i + 1], threshold, ratio);
      KeptStep(bs, i, threshold, ratio, before, keep);
      KeptPrefix(bs, i + 1, threshold, ratio);
      IndexAfterPrefix(w, u, before, i, keep);
    }
  }

  /** i is among the indices w exactly when it was appended to the prefix u
      of w: the indices before it are below i, the ones after beyond it. */
  lemma {:induction false} IndexAfterPrefix(w: seq<nat>, u: seq<nat>, before: seq<nat>, i: nat, keep: bool)
    requires u == if keep then before + [i] else before
    requires |u| <= |w| && w[..|u|] == u && forall k :: |u| <= k < |w| ==> w[k] >= i + 1
    requires forall k :: 0 <= k < |before| ==> before[k] < i
    ensures i in w <==> keep
  {
    if keep {
      assert w[|u| - 1] == u[|u| - 1] == i;
    } else {
      forall k | 0 <= k < |w|
        ensures w[k] != i
      {
        if k < |u| {
          assert w[k] == u[k];
        }
      }
    }
  }

  /** One more block: it joins the kept indices exactly when it passes the
      test against the last block kept so far. */
  lemma {:induction false} KeptStep(bs: seq<string>, i: nat, threshold: real, ratio: (string, string) -> real,
                                    before: seq<nat>, keep: bool)
    requires 1 <= i < |bs| && before == KeptIdx(bs[..i], threshold, ratio)
    requires keep == Keeps(bs[i], bs[before[|before| - 1]], threshold, ratio)
    ensures KeptIdx(bs[..i + 1], threshold, ratio) == if keep then before + [i] else before
  {
    var upto := bs[..i + 1];
    assert upto[..i] == bs[..i];
    assert upto[before[|before| - 1]] == bs[before[|before| - 1]];
  }

  lemma {:induction false} PickSnoc(bs: seq<string>, idx: seq<nat>, i: nat)
    requires i < |bs| && forall k :: 0 <= k < |idx| ==> idx[k] < |bs|
    ensures Pick(bs, idx + [i]) == Pick(bs, idx) + [bs[i]]
  {
    var a, b := Pick(bs, idx + [i]), Pick(bs, idx) + [bs[i]];
    assert forall k :: 0 <= k < |a| ==> a[k] == b[k];
  }

  /** Short non-blank blocks always stay and blank ones always go. */
  lemma {:induction false} ShortBlocksKept(bs: seq<string>, i: nat, threshold: real, ratio: (string, string) -> real)
    requires 1 <= i < |bs|
    ensures 0 < |Strip(bs[i])| < 100 ==> i in KeptIdx(bs, threshold, ratio)
    ensures Strip(bs[i]) == "" ==> i !in KeptIdx(bs, threshold, ratio)
  {
    KeptRule(bs, i, threshold, ratio);
  }

  /** One turn of deduplicate_paragraphs' loop over block i. */
  method DedupStep(blocks: seq<string>, i: nat, deduped: seq<string>, ghost idx: seq<nat>,
                   threshold: real, ratio: (string, string) -> real)
    returns (next: seq<string>, ghost nextIdx: seq<nat>)
    requires 1 <= i < |blocks| && idx == KeptIdx(blocks[..i], threshold, ratio) && deduped == Pick(blocks, idx)
    ensures nextIdx == KeptIdx(blocks[..i + 1], threshold, ratio) && next == Pick(blocks, nextIdx)
  {
    KeptStep(blocks, i, threshold, ratio, idx, Keeps(blocks[i], blocks[idx[|idx| - 1]], threshold, ratio));
    PickSnoc(blocks, idx, i);
    assert deduped[|deduped| - 1] == blocks[idx[|idx| - 1]];
    next, nextIdx := deduped, idx;
    var current := Strip(blocks[i]);
    var previous := Strip(deduped[|deduped| - 1]);
    if current == "" {
      return;
    }
    if |current| < 100 {
      next, nextIdx := deduped + [blocks[i]], idx + [i];
      return;
    }
    var sim := Similarity(current, previous, ratio);
    if sim >= threshold {
      return;
    }
    next, nextIdx := deduped + [blocks[i]], idx + [i];
  }

  /** deduplicate_paragraphs */
  method Deduplicate(latex: string, threshold: real, ratio: (string, string) -> real) returns (r: string)
    ensures |SplitBlocks(latex).0| <= 1 ==> r == latex
    ensures |SplitBlocks(latex).0| > 1 ==>
      var bs := SplitBlocks(latex).0;
      r == Join("\n\n", Pick(bs, KeptIdx(bs, threshold, ratio)))
  {
    var blocks := SplitBlocks(latex).0;
    if |blocks| <= 1 {
      return latex;
    }
    var deduped := [blocks[0]];
    ghost var idx: seq<nat> := [0];
    assert blocks[..1] == [blocks[0]];
    for i := 1 to |blocks|
      invariant idx == KeptIdx(blocks[..i], threshold, ratio)
      invariant deduped == Pick(blocks, idx)
    {
      deduped, idx := DedupStep(blocks, i, deduped, idx, threshold, ratio);
    }
    assert blocks[..|blocks|] == blocks;
    r := Join("\n\n", deduped);
  }

  // ───────────── chapters ─────────────

  /** A chapter dict: its "sections" list and its other keys. */
  datatype Chapter = Chapter(fields: Obj, sections: seq<Obj>)

  /** Every section of the chapters, chapter by chapter. */
  function AllSections(chs: seq<Chapter>): seq<Obj>
    decreases |chs|
  {
    if chs == [] then [] else AllSections(chs[..|chs| - 1]) + chs[|chs| - 1].sections
  }

  lemma {:induction false} AllSectionsAppend(a: seq<Chapter>, b: seq<Chapter>)
    ensures AllSections(a + b) == AllSections(a) + AllSections(b)
    decreases |b|
  {
    if b == [] {
      assert a + b == a;
    } else {
      var init := b[..|b| - 1];
      AllSectionsAppend(a, init);
      assert (a + b)[..|a + b| - 1] == a + init;
      assert (a + b)[|a + b| - 1] == b[|b| - 1];
      assert AllSections(a + b) == AllSections(a + init) + b[|b| - 1].sections;
    }
  }

  /** prev["sections"] = prev.get("sections", []) + ch.get("sections", []) */
  function Absorb(prev: Chapter, ch: Chapter): Chapter
  {
    prev.(sections := prev.sections + ch.sections)
  }

  /** Pass 1: a chapter whose size estimate is below min_chars is folded into
      the chapter before it (the first chapter is never folded). */
  function Pass1(chs: seq<Chapter>, minChars: int, size: Chapter -> nat): (r: seq<Chapter>)
    requires |chs| >= 1
    ensures 1 <= |r| <= |chs| && r[0].fields == chs[0].fields
    decreases |chs|
  {
    if |chs| == 1 then [chs[0]]
    else
      var m := Pass1(chs[..|chs| - 1], minChars, size);
      var ch := chs[|chs| - 1];
      if size(ch) < minChars then m[..|m| - 1] + [Absorb(m[|m| - 1], ch)] else m + [ch]
  }

  lemma {:induction false} AllSectionsSingle(c: Chapter)
    ensures AllSections([c]) == c.sections
  {
    assert [c][..0] == [];
  }

  /** Folding a chapter into the last one keeps the section order. */
  lemma {:induction false} AbsorbLast(m: seq<Chapter>, ch: Chapter)
    requires |m| >= 1
    ensures AllSections(m[..|m| - 1] + [Absorb(m[|m| - 1], ch)]) == AllSections(m + [ch])
  {
    var init, last := m[..|m| - 1], m[|m| - 1];
    assert m == init + [last];
    AllSectionsAppend(init, [Absorb(last, ch)]);
    AllSectionsSingle(Absorb(last, ch));
    AllSectionsAppend(m, [ch]);
    AllSectionsSingle(ch);
    AllSectionsAppend(init, [last]);
    AllSectionsSingle(last);
  }

  /** Pass 1 over one more chapter. */
  lemma {:induction false} Pass1Step(chs: seq<Chapter>, i: nat, minChars: int, size: Chapter -> nat)
    requires 1 <= i < |chs|
    ensures var m := Pass1(chs[..i], minChars, size);
      Pass1(chs[..i + 1], minChars, size) ==
        if size(chs[i]) < minChars then m[..|m| - 1] + [Absorb(m[|m| - 1], chs[i])] else m + [chs[i]]
  {
    var upto := chs[..i + 1];
    assert upto[..i] == chs[..i];
    assert upto[i] == chs[i];
  }

  /** Pass 1 keeps every section, in order. */
  lemma {:induction false} Pass1Sections(chs: seq<Chapter>, minChars: int, size: Chapter -> nat)
    requires |chs| >= 1
    ensures AllSections(Pass1(chs, minChars, size)) == AllSections(chs)
    decreases |chs|
  {
    if |chs| > 1 {
      var init := chs[..|chs| - 1];
      var ch := chs[|chs| - 1];
      Pass1Sections(init, minChars, size);
      var m := Pass1(init, minChars, size);
      assert chs == init + [ch];
      AllSectionsAppend(init, [ch]);
      AllSectionsAppend(m, [ch]);
      if size(ch) < minChars {
        AbsorbLast(m, ch);
      }
    }
  }

  /** The chapter heads pass 1 keeps: the first, and every later chapter at
      least min_chars in size. */
  lemma {:induction false} Pass1Count(chs: seq<Chapter>, minChars: int, size: Chapter -> nat)
    requires |chs| >= 1
    ensures |Pass1(chs, minChars, size)| == 1 + |Filter(chs[1..], ch => size(ch) >= minChars)|
    decreases |chs|
  {
    if |chs| > 1 {
      var init := chs[..|chs| - 1];
      Pass1Count(init, minChars, size);
      assert chs[1..][..|chs[1..]| - 1] == init[1..];
    }
  }

  /** Pass 2's scan: the first adjacent pair with the least combined size. */
  method ShortestPair(merged: seq<Chapter>, size: Chapter -> nat) returns (minIdx: nat)
    requires |merged| >= 2
    ensures minIdx < |merged| - 1
    ensures forall i :: 0 <= i < |merged| - 1 ==>
      size(merged[minIdx]) + size(merged[minIdx + 1]) <= size(merged[i]) + size(merged[i + 1])
    ensures forall i :: 0 <= i < minIdx ==>
      size(merged[minIdx]) + size(merged[minIdx + 1]) < size(merged[i]) + size(merged[i + 1])
    ensures minIdx == MinPair(merged, size, |merged| - 1)
  {
    var minCombined: Option<nat> := None;   // float("inf")
    minIdx := 0;
    for i := 0 to |merged| - 1
      invariant minIdx < |merged| - 1
      invariant i == 0 <==> minCombined.None?
      invariant minCombined.Some? ==> minCombined.value == size(merged[minIdx]) + size(merged[minIdx + 1])
      invariant minCombined.Some? ==> minIdx < i
      invariant minCombined.Some? ==>
        forall k :: 0 <= k < i ==> minCombined.value <= size(merged[k]) + size(merged[k + 1])
      invariant minCombined.Some? ==>
        forall k :: 0 <= k < minIdx ==> minCombined.value < size(merged[k]) + size(merged[k + 1])
    {
      var combined := size(merged[i]) + size(merged[i + 1]);
      if minCombined.None? || combined < minCombined.value {
        minCombined := Some(combined);
        minIdx := i;
      }
    }
    // the first minimal pair is unique
    ghost var m := MinPair(merged, size, |merged| - 1);
    assert PairSize(merged, size, minIdx) <= PairSize(merged, size, m);
    assert PairSize(merged, size, m) <= PairSize(merged, size, minIdx);
  }

  /** The combined size of the adjacent pair at i. */
  function PairSize(merged: seq<Chapter>, size: Chapter -> nat, i: nat): nat
    requires i + 1 < |merged|
  {
    size(merged[i]) + size(merged[i + 1])
  }

  /** The first pair among the first n with the least combined size. */
  function MinPair(merged: seq<Chapter>, size: Chapter -> nat, n: nat): (r: nat)
    requires 1 <= n < |merged|
    ensures r < n
    ensures forall i :: 0 <= i < n ==> PairSize(merged, size, r) <= PairSize(merged, size, i)
    ensures forall i :: 0 <= i < r ==> PairSize(merged, size, r) < PairSize(merged, size, i)
  {
    if n == 1 then 0
    else
      var j := MinPair(merged, size, n - 1);
      if PairSize(merged, size, n - 1) < PairSize(merged, size, j) then n - 1 else j
  }

  /** Pass 2: merge the first shortest adjacent pair until at most
      max_chapters remain; None is the IndexError met once a single chapter
      is left and max_chapters is below 1. */
  function Pass2(merged: seq<Chapter>, maxChapters: int, size: Chapter -> nat): Option<seq<Chapter>>
    decreases |merged|
  {
    if |merged| <= maxChapters then Some(merged)
    else if |merged| < 2 then None
    else Pass2(MergePair(merged, MinPair(merged, size, |merged| - 1)), maxChapters, size)
  }

  /** Pass 2 ends with exactly min(max_chapters, n) chapters when max_chapters
      is at least 1, keeps every section in order and the first chapter's
      fields; below 1 it fails. */
  lemma {:induction false} Pass2Result(merged: seq<Chapter>, maxChapters: int, size: Chapter -> nat)
    requires |merged| >= 1
    ensures Pass2(merged, maxChapters, size).Some? <==> maxChapters >= 1
    ensures Pass2(merged, maxChapters, size).Some? ==>
      var r := Pass2(merged, maxChapters, size).value;
      |r| == (if |merged| <= maxChapters then |merged| else maxChapters) &&
      AllSections(r) == AllSections(merged) && r[0].fields == merged[0].fields
    decreases |merged|
  {
    if |merged| > maxChapters && |merged| >= 2 {
      var i := MinPair(merged, size, |merged| - 1);
      MergePairSections(merged, i);
      Pass2Result(MergePair(merged, i), maxChapters, size);
    }
  }

  /** Merging the pair at i: the second chapter's sections join the first's. */
  function MergePair(merged: seq<Chapter>, i: nat): (r: seq<Chapter>)
    requires i + 1 < |merged|
    ensures |r| == |merged| - 1 && r[0].fields == merged[0].fields
  {
    merged[..i] + [Absorb(merged[i], merged[i + 1])] + merged[i + 2..]
  }

  lemma {:induction false} MergePairSections(merged: seq<Chapter>, i: nat)
    requires i + 1 < |merged|
    ensures AllSections(MergePair(merged, i)) == AllSections(merged)
  {
    var a, x, y, c := merged[..i], merged[i], merged[i + 1], merged[i + 2..];
    calc {
      AllSections(MergePair(merged, i));
      == { assert MergePair(merged, i) == (a + [Absorb(x, y)]) + c; }
      AllSections((a + [Absorb(x, y)]) + c);
      == { AllSectionsAppend(a + [Absorb(x, y)], c); AllSectionsAppend(a, [Absorb(x, y)]); }
      AllSections(a) + AllSections([Absorb(x, y)]) + AllSections(c);
      == { AllSectionsSingle(Absorb(x, y)); PairSections(x, y); }
      AllSections(a) + AllSections([x, y]) + AllSections(c);
      == { AllSectionsAppend(a + [x, y], c); AllSectionsAppend(a, [x, y]); }
      AllSections((a + [x, y]) + c);
      == { assert (a + [x, y]) + c == merged; }
      AllSections(merged);
    }
  }

  lemma {:induction false} PairSections(x: Chapter, y: Chapter)
    ensures AllSections([x, y]) == x.sections + y.sections
  {
    assert [x, y][..1] == [x];
    AllSectionsSingle(x);
  }

  /** Pass 1 of merge_micro_chapters: a single backward-folding scan. */
  method FoldMicroChapters(chapters: seq<Chapter>, minChars: int, size: Chapter -> nat)
    returns (merged: seq<Chapter>)
    requires |chapters| >= 1
    ensures merged == Pass1(chapters, minChars, size)
  {
    merged := [chapters[0]];
    assert chapters[..1] == [chapters[0]];
    for i := 1 to |chapters|
      invariant merged == Pass1(chapters[..i], minChars, size)
    {
      Pass1Step(chapters, i, minChars, size);
      var ch := chapters[i];
      if size(ch) < minChars {
        var prev := merged[|merged| - 1];
        merged := merged[..|merged| - 1] + [Absorb(prev, ch)];
      } else {
        merged := merged + [ch];
      }
    }
    assert chapters[..|chapters|] == chapters;
  }

  /** merge_micro_chapters.  With at most one chapter the input comes back.
      Otherwise pass 1 folds micro-chapters backwards and pass 2 merges the
      smallest adjacent pair until at most max_chapters remain; with
      max_chapters below 1 pass 2 reaches a single chapter and then indexes
      past it, which is the IndexError (None). */
  method MergeMicroChapters(chapters: seq<Chapter>, minChars: int, maxChapters: int, size: Chapter -> nat)
    returns (r: Option<seq<Chapter>>)
    ensures |chapters| <= 1 ==> r == Some(chapters)
    ensures |chapters| > 1 ==> (r.None? <==> maxChapters < 1)
    ensures r.Some? && |chapters| > 1 ==>
      1 <= |r.value| <= maxChapters && |r.value| <= |Pass1(chapters, minChars, size)| &&
      AllSections(r.value) == AllSections(chapters) && r.value[0].fields == chapters[0].fields
    ensures r.Some? && |chapters| > 1 && maxChapters >= |Pass1(chapters, minChars, size)| ==>
      r.value == Pass1(chapters, minChars, size)
    ensures |chapters| > 1 ==> r == Pass2(Pass1(chapters, minChars, size), maxChapters, size)
    ensures r.Some? && |chapters| > 1 ==>
      |r.value| == (if |Pass1(chapters, minChars, size)| <= maxChapters then |Pass1(chapters, minChars, size)|
                    else maxChapters)
  {
    if |chapters| <= 1 {
      return Some(chapters);
    }
    var merged := FoldMicroChapters(chapters, minChars, size);
    Pass1Sections(chapters, minChars, size);
    ghost var pass1 := merged;
    while |merged| > maxChapters
      invariant 1 <= |merged| <= |pass1|
      invariant AllSections(merged) == AllSections(chapters) && merged[0].fields == chapters[0].fields
      invariant maxChapters >= |pass1| ==> merged == pass1
      invariant Pass2(merged, maxChapters, size) == Pass2(pass1, maxChapters, size)
      decreases |merged|
    {
      if |merged| < 2 {
        return None;
      }
      var minIdx := ShortestPair(merged, size);
      MergePairSections(merged, minIdx);
      merged := MergePair(merged, minIdx);
    }
    r := Some(merged);
    Pass2Result(pass1, maxChapters, size);
  }

  // ───────────── strip_syllabus_restarts ─────────────

  const ChapterMarker: string := "\\chapter{"

  /** How many of the lines hold a chapter command. */
  function ChapterLines(lines: seq<string>): nat
    decreases |lines|
  {
    if lines == [] then 0
    else ChapterLines(lines[..|lines| - 1]) + (if Contains(lines[|lines| - 1], ChapterMarker) then 1 else 0)
  }

  /** The lines that survive: a line goes when it matches a restart pattern
      and the chapter count up to and including it is at least 3. */
  function KeptLines(lines: seq<string>, isRestart: string -> bool): (r: seq<string>)
    ensures |r| <= |lines|
    decreases |lines|
  {
    if lines == [] then []
    else
      var last := lines[|lines| - 1];
      KeptLines(lines[..|lines| - 1], isRestart) + (if ChapterLines(lines) >= 3 && isRestart(last) then [] else [last])
  }

  /** The position of the first line with a chapter command. */
  function FirstChapterLine(lines: seq<string>): (r: Option<nat>)
    ensures r.Some? ==> r.value < |lines| && Contains(lines[r.value], ChapterMarker)
    ensures r.Some? ==> forall k :: 0 <= k < r.value ==> !Contains(lines[k], ChapterMarker)
    ensures r.None? ==> forall k :: 0 <= k < |lines| ==> !Contains(lines[k], ChapterMarker)
    decreases |lines|
  {
    if lines == [] then None
    else if Contains(lines[0], ChapterMarker) then Some(0)
    else match FirstChapterLine(lines[1..])
      case None => None
      case Some(k) => Some(k + 1)
  }

  /** Both counts over one more line. */
  lemma {:induction false} LinesStep(lines: seq<string>, j: nat, isRestart: string -> bool)
    requires j < |lines|
    ensures ChapterLines(lines[..j + 1]) == ChapterLines(lines[..j]) + (if Contains(lines[j], ChapterMarker) then 1 else 0)
    ensures KeptLines(lines[..j + 1], isRestart) == KeptLines(lines[..j], isRestart) +
      (if ChapterLines(lines[..j + 1]) >= 3 && isRestart(lines[j]) then [] else [lines[j]])
  {
    var upto := lines[..j + 1];
    assert upto[..j] == lines[..j];
    assert upto[j] == lines[j];
  }

  /** strip_syllabus_restarts.  `isRestart` is the restart-pattern search. */
  method StripSyllabusRestarts(latex: string, isRestart: string -> bool) returns (r: string)
    ensures var lines := Split(latex, "\n");
      (FirstChapterLine(lines).None? || FirstChapterLine(lines) == Some(0)) ==> r == latex
    ensures var lines := Split(latex, "\n");
      FirstChapterLine(lines).Some? && FirstChapterLine(lines) != Some(0) ==> r == Join("\n", KeptLines(lines, isRestart))
  {
    var lines := Split(latex, "\n");
    var firstChapterLine := 0;
    var i := 0;
    while i < |lines|
      invariant 0 <= i <= |lines| && firstChapterLine == 0
      invariant forall k :: 0 <= k < i ==> !Contains(lines[k], ChapterMarker)
    {
      if Contains(lines[i], ChapterMarker) {
        firstChapterLine := i;
        break;
      }
      i := i + 1;
    }
    assert firstChapterLine == 0 <==> FirstChapterLine(lines).None? || FirstChapterLine(lines) == Some(0);
    if firstChapterLine == 0 {
      return latex;
    }
    var chapterCount := 0;
    var cleaned := [];
    for j := 0 to |lines|
      invariant chapterCount == ChapterLines(lines[..j])
      invariant cleaned == KeptLines(lines[..j], isRestart)
    {
      LinesStep(lines, j, isRestart);
      if Contains(lines[j], ChapterMarker) {
        chapterCount := chapterCount + 1;
      }
      if chapterCount >= 3 && isRestart(lines[j]) {
        continue;
      }
      cleaned := cleaned + [lines[j]];
    }
    assert lines[..|lines|] == lines;
    r := Join("\n", cleaned);
  }

  /** The survivors are a subsequence of the lines. */
  lemma {:induction false} KeptLinesSubseq(lines: seq<string>, isRestart: string -> bool)
    ensures IsSubseq(KeptLines(lines, isRestart), lines)
    decreases |lines|
  {
    if lines != [] {
      var init := lines[..|lines| - 1];
      var last := lines[|lines| - 1];
      KeptLinesSubseq(init, isRestart);
      assert lines == init + [last];
      SubseqSnoc(KeptLines(init, isRestart), init, last);
      if ChapterLines(lines) >= 3 && isRestart(last) {
        assert KeptLines(lines, isRestart) == KeptLines(init, isRestart);
      } else {
        assert KeptLines(lines, isRestart) == KeptLines(init, isRestart) + [last];
      }
    }
  }

  /** Everything before the third chapter line survives untouched, and the
      output begins with it. */
  lemma {:induction false} KeptBeforeThirdChapter(lines: seq<string>, k: nat, isRestart: string -> bool)
    requires k <= |lines| && ChapterLines(lines[..k]) < 3
    ensures KeptLines(lines[..k], isRestart) == lines[..k]
    ensures |KeptLines(lines[..k], isRestart)| <= |KeptLines(lines, isRestart)|
    ensures KeptLines(lines, isRestart)[..k] == lines[..k]
    decreases |lines|
  {
    if k == |lines| {
      assert lines[..k] == lines;
      KeptPrefixLines(lines, isRestart);
    } else {
      var init := lines[..|lines| - 1];
      assert init[..k] == lines[..k];
      KeptBeforeThirdChapter(init, k, isRestart);
    }
  }

  /** Below three chapter lines nothing is removed. */
  lemma {:induction false} KeptPrefixLines(lines: seq<string>, isRestart: string -> bool)
    requires ChapterLines(lines) < 3
    ensures KeptLines(lines, isRestart) == lines
    decreases |lines|
  {
    if lines != [] {
      var init := lines[..|lines| - 1];
      KeptPrefixLines(init, isRestart);
      assert lines == init + [lines[|lines| - 1]];
    }
  }

  // ───────────── chapter filters ─────────────

  predicate HasSections(ch: Chapter)
  {
    ch.sections != []
  }

  /** strip_empty_chapters */
  method StripEmptyChapters(chapters: seq<Chapter>) returns (filtered: seq<Chapter>)
    ensures filtered == Filter(chapters, HasSections)
  {
    filtered := [];
    for i := 0 to |chapters|
      invariant filtered == Filter(chapters[..i], HasSections)
    {
      assert chapters[..i + 1][..i] == chapters[..i];
      if chapters[i].sections == [] {
        continue;
      }
      filtered := filtered + [chapters[i]];
    }
    assert chapters[..|chapters|] == chapters;
  }

  /** Exactly the chapters with sections remain, in order. */
  lemma {:induction false} StripEmptyChaptersSpec(chapters: seq<Chapter>)
    ensures forall ch :: ch in Filter(chapters, HasSections) <==> ch in chapters && ch.sections != []
    ensures IsSubseq(Filter(chapters, HasSections), chapters)
  {
    FilterSpec(chapters, HasSections);
  }

  /** A string value whose stripped length exceeds n. */
  predicate LongText(v: Option<Value>, n: nat)
  {
    v.Some? && v.value.Str? && |Strip(v.value.s)| > n
  }

  predicate NonEmptyList(v: Option<Value>)
  {
    v.Some? && v.value.List? && |v.value.items| > 0
  }

  /** A nested content block with text over 20 or latex over 5 characters. */
  predicate BlockCounts(b: Value)
  {
    b.Object? && (LongText(Get(b.fields, "text"), 20) || LongText(Get(b.fields, "latex"), 5))
  }

  predicate ContentCounts(v: Option<Value>)
  {
    v.Some? && v.value.List? && exists b :: b in v.value.items && BlockCounts(b)
  }

  /** A section that is not a heading and carries text, an equation,
      qualifying nested content, solution steps or list items. */
  predicate RealSection(s: Obj)
  {
    Get(s, "type") != Some(Str("heading")) &&
    (LongText(Get(s, "text"), 20) || LongText(Get(s, "latex"), 5) || ContentCounts(Get(s, "content")) ||
     NonEmptyList(Get(s, "solution_steps")) || NonEmptyList(Get(s, "items")))
  }

  predicate RealChapter(ch: Chapter)
  {
    exists s :: s in ch.sections && RealSection(s)
  }

  /** _has_real_content: the scan stops at the first qualifying section. */
  method HasRealContent(ch: Chapter) returns (found: bool)
    ensures found <==> RealChapter(ch)
  {
    for i := 0 to |ch.sections|
      invariant forall k :: 0 <= k < i ==> !RealSection(ch.sections[k])
    {
      var section := ch.sections[i];
      assert section in ch.sections;
      if Get(section, "type") == Some(Str("heading")) {
        continue;
      }
      if LongText(Get(section, "text"), 20) || LongText(Get(section, "latex"), 5) {
        return true;
      }
      var content := Get(section, "content");
      if content.Some? && content.value.List? {
        var blocks := content.value.items;
        for j := 0 to |blocks|
          invariant forall k :: 0 <= k < j ==> !BlockCounts(blocks[k])
        {
          if BlockCounts(blocks[j]) {
            assert ContentCounts(content);
            return true;
          }
        }
      }
      if NonEmptyList(Get(section, "solution_steps")) || NonEmptyList(Get(section, "items")) {
        return true;
      }
    }
    return false;
  }

  /** strip_heading_only_chapters */
  method StripHeadingOnlyChapters(chapters: seq<Chapter>) returns (filtered: seq<Chapter>)
    ensures filtered == Filter(chapters, RealChapter)
  {
    filtered := [];
    for i := 0 to |chapters|
      invariant filtered == Filter(chapters[..i], RealChapter)
    {
      assert chapters[..i + 1][..i] == chapters[..i];
      var hasContent := HasRealContent(chapters[i]);
      if hasContent {
        filtered := filtered + [chapters[i]];
      }
    }
    assert chapters[..|chapters|] == chapters;
  }

  /** Exactly the chapters with real content remain, in order. */
  lemma {:induction false} StripHeadingOnlySpec(chapters: seq<Chapter>)
    ensures forall ch :: ch in Filter(chapters, RealChapter) <==>
      ch in chapters && exists s :: s in ch.sections && RealSection(s)
    ensures IsSubseq(Filter(chapters, RealChapter), chapters)
  {
    FilterSpec(chapters, RealChapter);
  }
}
