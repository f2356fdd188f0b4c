/** backend/src/placeholder_generator.py: the greedy word wrapper of the
    description text and the colour scheme cycling of the generator.  The
    drawing itself (fonts, boxes, lines, saving the file) is not modelled. */
module Placeholder {
  import opened TextUtil

  // ---- Words ----

  /** Where the word starting at k ends: the first whitespace at or after k. */
  function WordEnd(s: string, k: nat): (n: nat)
    requires k <= |s|
    ensures k <= n <= |s|
    ensures forall j :: k <= j < n ==> !IsSpace(s[j])
    ensures n < |s| ==> IsSpace(s[n])
    decreases |s| - k
  {
    if k == |s| || IsSpace(s[k]) then k else WordEnd(s, k + 1)
  }

  /** str.split() with no argument: the maximal runs of non-whitespace. */
  function Words(s: string): (r: seq<string>)
    ensures forall i :: 0 <= i < |r| ==> r[i] != "" && forall j :: 0 <= j < |r[i]| ==> !IsSpace(r[i][j])
    decreases |s|
  {
    if s == [] then []
    else if IsSpace(s[0]) then Words(s[1..])
    else
      var n := WordEnd(s, 0);
      assert forall j :: 0 <= j < n ==> s[..n][j] == s[j];
      [s[..n]] + Words(s[n..])
  }

  /** Whitespace alone has no words. */
  lemma {:induction false} BlankNoWords(s: string)
    requires IsBlank(s)
    ensures Words(s) == []
    decreases |s|
  {
    if s != [] {
      assert IsBlank(s[1..]) by {
        forall j | 0 <= j < |s| - 1 ensures IsSpace(s[1..][j]) { assert s[1..][j] == s[j + 1]; }
      }
      BlankNoWords(s[1..]);
    }
  }

  // ---- Wrapping ----

  /** The wrapper's two variables: the finished lines and the line being
      filled. */
  datatype WrapState = WrapState(lines: seq<string>, current: string)

  /** One word: it joins the current line when the current line, a space
      and the word fit; otherwise a non-empty current line is finished and
      the word starts the next one. */
  function WrapStep(st: WrapState, word: string, maxChars: int): WrapState
  {
    if |st.current| + |word| + 1 <= maxChars then
      WrapState(st.lines, if st.current != "" then st.current + " " + word else word)
    else
      WrapState(if st.current != "" then st.lines + [st.current] else st.lines, word)
  }

  /** The state after the given words. */
  function WrapFold(words: seq<string>, maxChars: int): WrapState
  {
    if words == [] then WrapState([], "")
    else WrapStep(WrapFold(words[..|words| - 1], maxChars), words[|words| - 1], maxChars)
  }

  /** The lines: the finished ones and a non-empty last one. */
  function WrapLines(words: seq<string>, maxChars: int): seq<string>
  {
    var st := WrapFold(words, maxChars);
    if st.current != "" then st.lines + [st.current] else st.lines
  }

  /** _wrap_text */
  method WrapText(text: string, maxChars: int) returns (lines: seq<string>)
    ensures lines == WrapLines(Words(text), maxChars)
  {
    var words := Words(text);
    lines := [];
    var current := "";
    var i := 0;
    while i < |words|
      invariant 0 <= i <= |words|
      invariant WrapState(lines, current) == WrapFold(words[..i], maxChars)
    {
      var word := words[i];
      if |current| + |word| + 1 <= maxChars {
        current := if current != "" then current + " " + word else word;
      } else {
        if current != "" {
          lines := lines + [current];
        }
        current := word;
      }
      i := i + 1;
      assert words[..i][..i - 1] == words[..i - 1];
    }
    assert words[..i] == words;
    if current != "" {
      lines := lines + [current];
    }
  }

  /** A line is non-empty and either fits or is one of the words. */
  predicate GoodLine(l: string, words: seq<string>, maxChars: int)
  {
    l != "" && (|l| <= maxChars || l in words)
  }

  predicate Wrapped(st: WrapState, words: seq<string>, maxChars: int)
  {
    (forall i :: 0 <= i < |st.lines| ==> GoodLine(st.lines[i], words, maxChars)) &&
    (st.current == "" <==> words == []) &&
    (words == [] ==> st.lines == []) &&
    (words != [] ==> GoodLine(st.current, words, maxChars)) &&
    (words != [] ==> Join(" ", st.lines + [st.current]) == Join(" ", words))
  }

  /** Join with the last element extended by " " + w. */
  lemma {:induction false} JoinExtendLast(xs: seq<string>, c: string, w: string)
    ensures Join(" ", xs + [c + " " + w]) == Join(" ", xs + [c]) + " " + w
  {
    JoinAppend(" ", xs, c + " " + w);
    JoinAppend(" ", xs, c);
  }

  /** The wrapper's state keeps its promise after every word. */
  lemma {:induction false} WrapFoldWrapped(words: seq<string>, maxChars: int)
    requires forall i :: 0 <= i < |words| ==> words[i] != ""
    ensures Wrapped(WrapFold(words, maxChars), words, maxChars)
    decreases |words|
  {
    if words != [] {
      var init := words[..|words| - 1];
      var w := words[|words| - 1];
      assert forall i :: 0 <= i < |init| ==> init[i] == words[i];
      WrapFoldWrapped(init, maxChars);
      var st := WrapFold(init, maxChars);
      assert words == init + [w];
      forall l | l in init ensures l in words {}
      if |st.current| + |w| + 1 <= maxChars {
        if st.current != "" {
          JoinExtendLast(st.lines, st.current, w);
          JoinAppend(" ", init, w);
        } else {
          assert [] + [w] == [w];
          assert init == [];
        }
      } else {
        if st.current != "" {
          assert st.lines + [st.current] + [w] == (st.lines + [st.current]) + [w];
          JoinAppend(" ", st.lines + [st.current], w);
          JoinAppend(" ", init, w);
        } else {
          assert init == [];
          assert [] + [w] == [w];
        }
      }
    }
  }

  /** Every line is non-empty and fits in maxChars unless it is a single
      word; joining the lines with spaces gives back the words joined with
      spaces, so every word is kept once and in order. */
  lemma {:induction false} WrapLinesSound(text: string, maxChars: int)
    ensures var r := WrapLines(Words(text), maxChars);
      forall i :: 0 <= i < |r| ==> r[i] != "" && (|r[i]| <= maxChars || r[i] in Words(text))
    ensures Join(" ", WrapLines(Words(text), maxChars)) == Join(" ", Words(text))
  {
    var words := Words(text);
    WrapFoldWrapped(words, maxChars);
  }

  /** A line longer than maxChars is one over-long word: when every word
      fits, every line fits. */
  lemma {:induction false} WrapFits(text: string, maxChars: int)
    requires forall i :: 0 <= i < |Words(text)| ==> |Words(text)[i]| <= maxChars
    ensures forall l :: l in WrapLines(Words(text), maxChars) ==> |l| <= maxChars
  {
    WrapLinesSound(text, maxChars);
  }

  /** Whitespace-only text wraps to no lines at all. */
  lemma {:induction false} WrapBlank(text: string, maxChars: int)
    requires IsBlank(text)
    ensures WrapLines(Words(text), maxChars) == []
  {
    BlankNoWords(text);
  }

  // ---- The generator ----

  /** The six (background, text) colour pairs, in the order they are used. */
  const Colors: seq<(string, string)> := [
    ("#2C3E50", "#ECF0F1"),
    ("#1A5276", "#D4E6F1"),
    ("#145A32", "#D5F5E3"),
    ("#6C3483", "#E8DAEF"),
    ("#922B21", "#FADBD8"),
    ("#1B4F72", "#AED6F1")
  ]

  /** The colours the k-th image gets. */
  function ColorsFor(k: nat): (string, string)
  {
    Colors[k % |Colors|]
  }

  /** The scheme repeats every six images, and two images made one after
      the other never share a background. */
  lemma {:induction false} ColorsCycle(k: nat)
    ensures ColorsFor(k + 6) == ColorsFor(k)
    ensures ColorsFor(k + 1).0 != ColorsFor(k).0
  {
    assert (k + 6) % 6 == k % 6;
    assert (k + 1) % 6 == if k % 6 == 5 then 0 else k % 6 + 1;
  }

  class PlaceholderGenerator {
    var colorIndex: nat

    constructor()
      ensures colorIndex == 0
    {
      colorIndex := 0;
    }

    /** generate_image: picks the next colour pair and wraps the
        description to at most four lines of 60 characters. */
    method GenerateImage(description: string, outputPath: string)
      returns (path: string, colors: (string, string), drawn: seq<string>)
      modifies this
      ensures colorIndex == old(colorIndex) + 1
      ensures colors == ColorsFor(old(colorIndex))
      ensures drawn == Prefix4(WrapLines(Words(description), 60))
      ensures path == outputPath
    {
      colors := Colors[colorIndex % |Colors|];
      colorIndex := colorIndex + 1;
      var wrapped := WrapText(description, 60);
      drawn := Prefix4(wrapped);
      path := outputPath;
    }
  }

  /** `wrapped[:4]` */
  function Prefix4(xs: seq<string>): (r: seq<string>)
    ensures |r| == if |xs| <= 4 then |xs| else 4
    ensures r == xs[..|r|]
  {
    if |xs| <= 4 then xs else xs[..4]
  }

  /** Two images made one after the other by the same generator get
      different backgrounds. */
  method TwoImages(g: PlaceholderGenerator, d1: string, d2: string, p1: string, p2: string)
    returns (c1: (string, string), c2: (string, string))
    modifies g
    ensures c1.0 != c2.0
  {
    ghost var k := g.colorIndex;
    ColorsCycle(k);
    var path, drawn;
    path, c1, drawn := g.GenerateImage(d1, p1);
    path, c2, drawn := g.GenerateImage(d2, p2);
  }
}
