// What the Typst and LaTeX renderers share: finding markdown images
// `![alt](path)` in a paragraph, normalising an image path, the filter that
// drops units past the fifth, and the "Problem Statement:" prefix cleanup.
module Markup {
  import opened TextUtil

  /** The first index at or after k holding c. */
  function FindChar(t: string, c: char, k: nat): (r: Option<nat>)
    ensures r.Some? ==> k <= r.value < |t| && t[r.value] == c && forall j :: k <= j < r.value ==> t[j] != c
    ensures r.None? ==> forall j :: k <= j < |t| ==> t[j] != c
    decreases |t| - k
  {
    if k >= |t| then None
    else if t[k] == c then Some(k)
    else FindChar(t, c, k + 1)
  }

  // ---- Markdown images ----

  /** A match of `!\[([^\]]*)\]\(([^)]+)\)`: the two groups and where it ends. */
  datatype ImageMatch = ImageMatch(alt: string, path: string, end: nat)

  /** The text an image match covers. */
  function RawImage(alt: string, path: string): string
  {
    "![" + alt + "](" + path + ")"
  }

  /** The image pattern tried at index i.  Neither group can contain its
      closing bracket, so the match, when there is one, is the only one. */
  function ImageAt(t: string, i: nat): (r: Option<ImageMatch>)
    ensures r.Some? ==>
      i < r.value.end <= |t| && t[i..r.value.end] == RawImage(r.value.alt, r.value.path) &&
      ']' !in r.value.alt && ')' !in r.value.path && r.value.path != ""
  {
    if i + 1 < |t| && t[i] == '!' && t[i + 1] == '[' then
      match FindChar(t, ']', i + 2)
      case None => None
      case Some(a) =>
        if a + 1 < |t| && t[a + 1] == '(' then
          match FindChar(t, ')', a + 2)
          case None => None
          case Some(b) =>
            if b > a + 2 then
              RawImageSlice(t, i, a, b);
              Some(ImageMatch(t[i + 2..a], t[a + 2..b], b + 1))
            else None
        else None
    else None
  }

  /** The text from "![" to ")" spells the image it holds. */
  lemma {:induction false} RawImageSlice(t: string, i: nat, a: nat, b: nat)
    requires i + 2 <= a && a + 2 <= b < |t|
    requires t[i] == '!' && t[i + 1] == '[' && t[a] == ']' && t[a + 1] == '(' && t[b] == ')'
    ensures t[i..b + 1] == RawImage(t[i + 2..a], t[a + 2..b])
  {
    assert t[i..i + 2] == "![";
    assert t[a..a + 2] == "](";
    assert t[b..b + 1] == ")";
    assert t[i..b + 1] == t[i..i + 2] + t[i + 2..a] + t[a..a + 2] + t[a + 2..b] + t[b..b + 1];
  }

  /** Where finditer finds the next image, searching from k. */
  function NextImage(t: string, k: nat): (r: Option<nat>)
    ensures r.Some? ==> k <= r.value < |t| && ImageAt(t, r.value).Some?
    ensures r.Some? ==> forall j :: k <= j < r.value ==> ImageAt(t, j).None?
    ensures r.None? ==> forall j :: k <= j < |t| ==> ImageAt(t, j).None?
    decreases |t| - k
  {
    if k >= |t| then None
    else if ImageAt(t, k).Some? then Some(k)
    else NextImage(t, k + 1)
  }

  /** A paragraph cut at its images: text before, between and after them. */
  datatype Piece = Plain(text: string) | Image(alt: string, path: string)

  function Raw(p: Piece): string
  {
    match p
    case Plain(text) => text
    case Image(alt, path) => RawImage(alt, path)
  }

  function RawAll(ps: seq<Piece>): string
  {
    if ps == [] then "" else Raw(ps[0]) + RawAll(ps[1..])
  }

  /** The paragraph from index k, as finditer walks it: text pieces and
      images alternate, starting and ending with text. */
  function Segments(t: string, k: nat): (r: seq<Piece>)
    requires k <= |t|
    decreases |t| - k
  {
    match NextImage(t, k)
    case None => [Plain(t[k..])]
    case Some(i) =>
      var m := ImageAt(t, i).value;
      [Plain(t[k..i]), Image(m.alt, m.path)] + Segments(t, m.end)
  }

  /** Text pieces and images alternate, starting and ending with text, and
      each image's groups hold no closing bracket. */
  lemma {:induction false} SegmentsShape(t: string, k: nat)
    requires k <= |t|
    ensures var r := Segments(t, k);
      r != [] && r[|r| - 1].Plain? &&
      (forall j :: 0 <= j < |r| ==> (r[j].Plain? <==> j % 2 == 0)) &&
      (forall j :: 0 <= j < |r| && r[j].Image? ==> ']' !in r[j].alt && ')' !in r[j].path && r[j].path != "")
    decreases |t| - k
  {
    var next := NextImage(t, k);
    if next.Some? {
      var m := ImageAt(t, next.value).value;
      var rest := Segments(t, m.end);
      SegmentsShape(t, m.end);
      var r := [Plain(t[k..next.value]), Image(m.alt, m.path)] + rest;
      assert Segments(t, k) == r;
      forall j | 2 <= j < |r|
        ensures r[j] == rest[j - 2] && (j % 2 == 0 <==> (j - 2) % 2 == 0)
      {
      }
    }
  }

  lemma RawAllCons2(a: Piece, b: Piece, rest: seq<Piece>)
    ensures RawAll([a, b] + rest) == Raw(a) + Raw(b) + RawAll(rest)
  {
    var ps := [a, b] + rest;
    assert ps[1..] == [b] + rest;
    assert ps[1..][1..] == rest;
  }

  /** Cutting loses nothing: the pieces spell out the paragraph. */
  lemma {:induction false} SegmentsRebuild(t: string, k: nat)
    requires k <= |t|
    ensures RawAll(Segments(t, k)) == t[k..]
    decreases |t| - k
  {
    var next := NextImage(t, k);
    if next.None? {
      assert Segments(t, k) == [Plain(t[k..])];
      assert RawAll([Plain(t[k..])]) == t[k..] + RawAll([]);
    } else {
      var i, m := SegmentsStep(t, k);
      SegmentsRebuild(t, m.end);
      RawAllCons2(Plain(t[k..i]), Image(m.alt, m.path), Segments(t, m.end));
      SliceThree(t, k, i, m.end);
    }
  }

  /** One step of the cut: the text up to the next image, the image, and
      the cut of the rest. */
  lemma {:induction false} SegmentsStep(t: string, k: nat) returns (i: nat, m: ImageMatch)
    requires k <= |t| && NextImage(t, k).Some?
    ensures k <= i < m.end <= |t| && t[i..m.end] == RawImage(m.alt, m.path)
    ensures Segments(t, k) == [Plain(t[k..i]), Image(m.alt, m.path)] + Segments(t, m.end)
  {
    i := NextImage(t, k).value;
    m := ImageAt(t, i).value;
  }

  /** A paragraph with no "![" has no image: it is one text piece. */
  lemma NoImageOnePiece(t: string)
    requires forall j :: 0 <= j < |t| - 1 ==> !(t[j] == '!' && t[j + 1] == '[')
    ensures Segments(t, 0) == [Plain(t)]
  {
    assert t[0..] == t;
  }

  /** The image pattern matches where "![alt](path)" was written. */
  lemma ImageAtWritten(t: string, i: nat, alt: string, path: string)
    requires ']' !in alt && ')' !in path && path != ""
    requires i + |RawImage(alt, path)| <= |t| && t[i..i + |RawImage(alt, path)|] == RawImage(alt, path)
    ensures ImageAt(t, i) == Some(ImageMatch(alt, path, i + |RawImage(alt, path)|))
  {
    var a := i + 2 + |alt|;
    var b := a + 2 + |path|;
    ImageParts(t, i, alt, path);
    forall j | i + 2 <= j < a ensures t[j] != ']' {
      assert t[j] == t[i + 2..a][j - i - 2];
    }
    FindCharAt(t, ']', i + 2, a);
    forall j | a + 2 <= j < b ensures t[j] != ')' {
      assert t[j] == t[a + 2..b][j - a - 2];
    }
    FindCharAt(t, ')', a + 2, b);
  }

  /** Where the delimiters and the two groups of a written image lie. */
  lemma {:induction false} ImageParts(t: string, i: nat, alt: string, path: string)
    requires i + |RawImage(alt, path)| <= |t| && t[i..i + |RawImage(alt, path)|] == RawImage(alt, path)
    ensures var a := i + 2 + |alt|; var b := a + 2 + |path|;
      t[i] == '!' && t[i + 1] == '[' && t[i + 2..a] == alt &&
      t[a] == ']' && t[a + 1] == '(' && t[a + 2..b] == path && t[b] == ')'
  {
    var a := i + 2 + |alt|;
    var b := a + 2 + |path|;
    var p1, p2, p3, p4, p5 := t[i..i + 2], t[i + 2..a], t[a..a + 2], t[a + 2..b], t[b..b + 1];
    assert t[i..b + 1] == p1 + p2 + p3 + p4 + p5;
    ConcatParts(p1 + p2 + p3 + p4, p5, "![" + alt + "](" + path, ")");
    ConcatParts(p1 + p2 + p3, p4, "![" + alt + "](", path);
    ConcatParts(p1 + p2, p3, "![" + alt, "](");
    ConcatParts(p1, p2, "![", alt);
    assert t[i] == p1[0] && t[i + 1] == p1[1];
    assert t[a] == p3[0] && t[a + 1] == p3[1];
    assert t[b] == p5[0];
  }

  /** FindChar stops at the first occurrence. */
  lemma {:induction false} FindCharAt(t: string, c: char, k: nat, a: nat)
    requires k <= a < |t| && t[a] == c && forall j :: k <= j < a ==> t[j] != c
    ensures FindChar(t, c, k) == Some(a)
    decreases a - k
  {
    if k < a { FindCharAt(t, c, k + 1, a); }
  }

  /** One image between two texts without "!" is found as such. */
  lemma {:induction false} OneImage(before: string, alt: string, path: string, after: string)
    requires forall j :: 0 <= j < |before| ==> before[j] != '!'
    requires ']' !in alt && ')' !in path && path != ""
    requires forall j :: 0 <= j < |after| ==> after[j] != '!'
    ensures Segments(before + RawImage(alt, path) + after, 0) ==
      [Plain(before), Image(alt, path), Plain(after)]
  {
    var w := RawImage(alt, path);
    var t := before + w + after;
    var i := |before|;
    var e := i + |w|;
    assert t[i..e] == w;
    ImageAtWritten(t, i, alt, path);
    forall j | 0 <= j < i ensures ImageAt(t, j).None? {
      assert t[j] == before[j];
    }
    NextImageFirst(t, 0, i);
    assert t[e..] == after;
    forall j | e <= j < |t| ensures ImageAt(t, j).None? {
      assert t[j] == after[j - e];
    }
    assert NextImage(t, e) == None by { NextImageNone(t, e); }
    assert t[0..i] == before;
  }

  lemma {:induction false} NextImageNone(t: string, k: nat)
    requires forall j :: k <= j < |t| ==> ImageAt(t, j).None?
    ensures NextImage(t, k) == None
    decreases |t| - k
  {
    if k < |t| { NextImageNone(t, k + 1); }
  }

  /** NextImage finds the first index where the pattern matches. */
  lemma {:induction false} NextImageFirst(t: string, k: nat, i: nat)
    requires k <= i < |t| && ImageAt(t, i).Some?
    requires forall j :: k <= j < i ==> ImageAt(t, j).None?
    ensures NextImage(t, k) == Some(i)
    decreases i - k
  {
    if k < i { NextImageFirst(t, k + 1, i); }
  }

  // ---- Image paths ----

  const OutputPrefix: string := "/data/output/"

  /** Replacing a character by text without it leaves none of it. */
  lemma {:induction false} ReplaceCharGone(s: string, c: char, rep: string)
    requires c !in rep
    ensures c !in ReplaceAll(s, [c], rep)
    decreases |s|
  {
    if |s| > 0 {
      ReplaceCharGone(s[1..], c, rep);
      if !StartsWith(s, [c]) { assert s[..1] == [s[0]]; }
    }
  }

  /** The image path: stripped, backslashes turned into "/", and a leading
      "/data/output/" dropped. */
  function NormalizePath(raw: string): (r: string)
    ensures '\\' !in r
  {
    var p := ReplaceAll(Strip(raw), "\\", "/");
    ReplaceCharGone(Strip(raw), '\\', "/");
    if StartsWith(p, OutputPrefix) then p[|OutputPrefix|..] else p
  }

  lemma {:induction false} AbsentChar(s: string, c: char)
    requires c !in s
    ensures !Contains(s, [c])
    decreases |s|
  {
    if |s| > 0 {
      AbsentChar(s[1..], c);
      assert s[..1] == [s[0]];
    }
  }

  /** A path under the output directory becomes relative to it. */
  lemma OutputPathRelative(rel: string)
    requires rel != [] && !IsSpace(rel[|rel| - 1]) && '\\' !in rel
    ensures NormalizePath(OutputPrefix + rel) == rel
  {
    var s := OutputPrefix + rel;
    assert s[|s| - 1] == rel[|rel| - 1];
    assert LStrip(s) == s;
    assert RStrip(s) == s;
    assert '\\' !in s;
    AbsentChar(s, '\\');
    ReplaceAllAbsent(s, "\\", "/");
    assert s[|OutputPrefix|..] == rel;
  }

  // ---- Unit titles ----

  /** The unit numbers the book keeps: 1-5 and I-V. */
  const ValidUnits: seq<string> := ["1", "2", "3", "4", "5", "I", "II", "III", "IV", "V"]

  /** [IVXLCDM\d] */
  predicate UnitChar(c: char) { c in "IVXLCDM" || IsDigit(c) }

  /** Length of the run of characters satisfying p that starts at k. */
  function RunFrom(u: string, k: nat, p: char -> bool): (n: nat)
    requires k <= |u|
    ensures k + n <= |u|
    ensures forall j :: k <= j < k + n ==> p(u[j])
    ensures k + n < |u| ==> !p(u[k + n])
    decreases |u| - k
  {
    if k < |u| && p(u[k]) then 1 + RunFrom(u, k + 1, p) else 0
  }

  lemma {:induction false} RunFromUnique(u: string, k: nat, p: char -> bool, n: nat)
    requires k + n <= |u| && (forall j :: k <= j < k + n ==> p(u[j])) && (k + n < |u| ==> !p(u[k + n]))
    ensures RunFrom(u, k, p) == n
    decreases n
  {
    if n > 0 { RunFromUnique(u, k + 1, p, n - 1); }
  }

  /** `UNIT\s+([IVXLCDM\d]+)` tried at index i of the upper-cased title:
      both runs are greedy and the character after each cannot continue it,
      so the group is the whole run of unit characters. */
  function UnitAt(u: string, i: nat): Option<string>
  {
    if i + 4 <= |u| && u[i..i + 4] == "UNIT" then
      var ws := RunFrom(u, i + 4, IsSpace);
      var n := RunFrom(u, i + 4 + ws, UnitChar);
      if ws > 0 && n > 0 then Some(u[i + 4 + ws..i + 4 + ws + n]) else None
    else None
  }

  /** re.search: the group of the first match. */
  function UnitSearch(u: string, i: nat): Option<string>
    decreases |u| - i
  {
    if i >= |u| then None
    else if UnitAt(u, i).Some? then UnitAt(u, i)
    else UnitSearch(u, i + 1)
  }

  /** A title mentioning UNIT (in any case) is set as a unit heading. */
  predicate IsUnitTitle(titleText: string)
  {
    Contains(Upper(titleText), "UNIT")
  }

  /** A unit heading whose number is not 1-5 or I-V: the whole page is
      dropped. */
  predicate SkippedUnit(titleText: string)
  {
    IsUnitTitle(titleText) &&
    var m := UnitSearch(Upper(titleText), 0);
    m.Some? && m.value !in ValidUnits
  }

  /** "UNIT <n>" is skipped exactly when n is not one of the kept numbers. */
  lemma UnitTitle(n: string)
    requires n != [] && forall j :: 0 <= j < |n| ==> UnitChar(n[j])
    ensures IsUnitTitle("UNIT " + n)
    ensures SkippedUnit("UNIT " + n) <==> n !in ValidUnits
  {
    var t := "UNIT " + n;
    UnitTitleUpper(n);
    assert t[0..4] == "UNIT";
    ContainsAt(t, "UNIT", 0);
    UnitTitleMatch(n);
    assert UnitSearch(t, 0) == Some(n);
  }

  /** The test is a substring test: "Community" upper-cases to "COMMUNITY",
      which holds "UNIT", so it is set as a unit heading, though no unit
      number follows. */
  lemma {:induction false} CommunityIsUnitTitle()
    ensures IsUnitTitle("Community")
  {
    var t := "Community";
    var u := Upper(t);
    assert t[4] == 'u' && t[5] == 'n' && t[6] == 'i' && t[7] == 't';
    assert u[4] == UpperChar('u') == 'U';
    assert u[5] == UpperChar('n') == 'N';
    assert u[6] == UpperChar('i') == 'I';
    assert u[7] == UpperChar('t') == 'T';
    assert u[4..8] == "UNIT";
    ContainsAt(u, "UNIT", 4);
  }

  /** Upper-casing leaves "UNIT <n>" alone. */
  lemma {:induction false} UnitTitleUpper(n: string)
    requires forall j :: 0 <= j < |n| ==> UnitChar(n[j])
    ensures Upper("UNIT " + n) == "UNIT " + n
  {
    var t := "UNIT " + n;
    forall j | 0 <= j < |t| ensures UpperChar(t[j]) == t[j] {
      if j >= 5 { assert t[j] == n[j - 5]; }
    }
  }

  /** The pattern at index 0 of "UNIT <n>" captures n. */
  lemma {:induction false} UnitTitleMatch(n: string)
    requires n != [] && forall j :: 0 <= j < |n| ==> UnitChar(n[j])
    ensures UnitAt("UNIT " + n, 0) == Some(n)
  {
    var t := "UNIT " + n;
    assert t[0..4] == "UNIT";
    RunFromUnique(t, 4, IsSpace, 1);
    assert forall j :: 5 <= j < |t| ==> t[j] == n[j - 5];
    RunFromUnique(t, 5, UnitChar, |n|);
    assert t[5..5 + |n|] == n;
  }

  // ---- Example problems ----

  const ProblemPrefix: string := "problem statement:"

  /** A problem statement that repeats its label loses it (in any case). */
  function DropProblemPrefix(statement: string): (r: string)
    ensures !StartsWith(Lower(statement), ProblemPrefix) ==> r == statement
    ensures StartsWith(Lower(statement), ProblemPrefix) ==> |r| <= |statement| - |ProblemPrefix|
  {
    if StartsWith(Lower(statement), ProblemPrefix) then Strip(statement[|ProblemPrefix|..]) else statement
  }
}
