// The Typst renderer: escaping running text, rewriting inline and display
// math, figures for markdown images, the section kinds of the structured
// book, whole chapters with the unit filter, and the final output cleanup.
// A Python exception raised while rendering (a non-dict section, a
// non-string text) is a None result.
module Typst {
  import opened TextUtil
  import opened JsonValue
  import opened Markup

  // ---- Escaping ----

  /** The characters escape_typst puts a backslash in front of. */
  predicate Special(c: char) { c in "#$*_<>@\\`~" }

  function EscapeChar(c: char): string
  {
    if Special(c) then ['\\', c] else [c]
  }

  /** escape_typst on a string. */
  function EscapeTypst(s: string): (r: string)
    ensures |r| >= |s|
    ensures r == [] <==> s == []
  {
    if s == [] then "" else EscapeChar(s[0]) + EscapeTypst(s[1..])
  }

  /** Reading escaped text back: a backslash takes the next character
      literally. */
  function Unescape(r: string): string
    decreases |r|
  {
    if r == [] then ""
    else if r[0] == '\\' && |r| >= 2 then [r[1]] + Unescape(r[2..])
    else [r[0]] + Unescape(r[1..])
  }

  /** Escaping loses nothing: every escape is undone by reading it back. */
  lemma {:induction false} EscapeRoundTrip(s: string)
    ensures Unescape(EscapeTypst(s)) == s
    decreases |s|
  {
    if s != [] {
      EscapeRoundTrip(s[1..]);
      var e := EscapeTypst(s);
      var t := EscapeTypst(s[1..]);
      if Special(s[0]) {
        assert e == ['\\', s[0]] + t;
        assert e[2..] == t;
      } else {
        assert e == [s[0]] + t;
        assert e[1..] == t;
      }
    }
  }

  /** Text without special characters is left exactly as it is. */
  lemma {:induction false} EscapePlain(s: string)
    requires forall i :: 0 <= i < |s| ==> !Special(s[i])
    ensures EscapeTypst(s) == s
    decreases |s|
  {
    if s != [] { EscapePlain(s[1..]); }
  }

  /** `for c in text` yields strings; replacements.get(c, c) only maps the
      single special characters. */
  function EscapeItem(x: string): string
  {
    if |x| == 1 then EscapeChar(x[0]) else x
  }

  /** "".join over the items iterated: every item must be a string. */
  function EscapeItems(xs: seq<Value>): Option<string>
  {
    if xs == [] then Some("")
    else if !xs[0].Str? then None
    else match EscapeItems(xs[1..])
      case None => None
      case Some(t) => Some(EscapeItem(xs[0].s) + t)
  }

  /** escape_typst on any JSON value: a falsy one gives "", an iterable of
      strings is joined, anything else raises. */
  function EscapeOf(v: Value): Option<string>
  {
    if !Truthy(v) then Some("")
    else match Iter(v)
      case None => None
      case Some(xs) => EscapeItems(xs)
  }

  function Chars(s: string): seq<Value>
  {
    seq(|s|, i requires 0 <= i < |s| => Str([s[i]]))
  }

  lemma {:induction false} EscapeItemsChars(s: string)
    ensures EscapeItems(Chars(s)) == Some(EscapeTypst(s))
    decreases |s|
  {
    if s != [] {
      assert Chars(s)[1..] == Chars(s[1..]);
      EscapeItemsChars(s[1..]);
    }
  }

  /** On a string value escape_typst escapes it character by character. */
  lemma {:induction false} EscapeOfStr(s: string)
    ensures EscapeOf(Str(s)) == Some(EscapeTypst(s))
  {
    if s != [] {
      assert Iter(Str(s)) == Some(Chars(s));
      EscapeItemsChars(s);
    }
  }

  // ---- Math in running text ----

  /** The first "$$" at or after k. */
  function FindPair(t: string, k: nat): (r: Option<nat>)
    ensures r.Some? ==> k <= r.value && r.value + 1 < |t| && t[r.value] == '$' && t[r.value + 1] == '$'
    ensures r.Some? ==> forall j :: k <= j < r.value ==> !(t[j] == '$' && t[j + 1] == '$')
    ensures r.None? ==> forall j :: k <= j < |t| - 1 ==> !(t[j] == '$' && t[j + 1] == '$')
    decreases |t| - k
  {
    if k + 1 >= |t| then None
    else if t[k] == '$' && t[k + 1] == '$' then Some(k)
    else FindPair(t, k + 1)
  }

  /** FindPair stops at the first "$$". */
  lemma {:induction false} FindPairAt(t: string, k: nat, i: nat)
    requires k <= i && i + 1 < |t| && t[i] == '$' && t[i + 1] == '$'
    requires forall j :: k <= j < i ==> !(t[j] == '$' && t[j + 1] == '$')
    ensures FindPair(t, k) == Some(i)
    decreases i - k
  {
    if k < i { FindPairAt(t, k + 1, i); }
  }

  /** Where `\$\$.*?\$\$|\$.*?\$` (dot matching newlines) ends when tried at
      a "$": the first alternative takes the nearest closing "$$", the
      second the nearest closing "$". */
  function MathEnd(t: string, i: nat): (r: Option<nat>)
    requires i < |t| && t[i] == '$'
    ensures r.Some? ==> i + 2 <= r.value <= |t| && t[r.value - 1] == '$'
  {
    if i + 1 < |t| && t[i + 1] == '$' && FindPair(t, i + 2).Some? then Some(FindPair(t, i + 2).value + 2)
    else match FindChar(t, '$', i + 1)
      case Some(j) => Some(j + 1)
      case None => None
  }

  /** re.split with the math pattern as a group, from index k: the text
      before each match, the match itself, and the text after the last one.
      Every match starts with "$", so the search stops at the first "$";
      when nothing matches there, no later "$" can close a match either. */
  function MathSplit(t: string, k: nat): (r: seq<string>)
    requires k <= |t|
    ensures |r| % 2 == 1
    decreases |t| - k
  {
    match FindChar(t, '$', k)
    case None => [t[k..]]
    case Some(i) =>
      match MathEnd(t, i)
      case None => [t[k..]]
      case Some(e) => [t[k..i], t[i..e]] + MathSplit(t, e)
  }

  /** The pieces of the split spell out the text. */
  lemma {:induction false} MathSplitRebuild(t: string, k: nat)
    requires k <= |t|
    ensures Concat(MathSplit(t, k)) == t[k..]
    decreases |t| - k
  {
    match FindChar(t, '$', k)
    case None => ConcatSingle(t[k..]);
    case Some(i) =>
      match MathEnd(t, i)
      case None => ConcatSingle(t[k..]);
      case Some(e) =>
        MathSplitRebuild(t, e);
        ConcatCons2(t[k..i], t[i..e], MathSplit(t, e));
        SliceThree(t, k, i, e);
  }

  lemma {:induction false} MathSplitEnd(t: string)
    ensures MathSplit(t, |t|) == [""]
  {
    assert FindChar(t, '$', |t|) == None;
    assert t[|t|..] == "";
  }

  /** One part of the split, as render_mixed_content_typst emits it. */
  function RenderPart(p: string): string
  {
    if p == "" then ""
    else if StartsWith(p, "$$") && EndsWith(p, "$$") then "$ " + Strip(PySlice(p, 2, -2)) + " $"
    else if StartsWith(p, "$") && EndsWith(p, "$") then "$" + Strip(PySlice(p, 1, -1)) + "$"
    else if !IsBlank(p) then EscapeTypst(p)
    else p
  }

  function RenderParts(ps: seq<string>): string
  {
    if ps == [] then "" else RenderPart(ps[0]) + RenderParts(ps[1..])
  }

  /** render_mixed_content_typst */
  function RenderMixed(t: string): string
  {
    if t == "" then "" else RenderParts(MathSplit(t, 0))
  }

  /** Text with no "$" is escaped as a whole (or kept when blank). */
  lemma {:induction false} MixedPlain(t: string)
    requires '$' !in t && !IsBlank(t)
    ensures RenderMixed(t) == EscapeTypst(t)
  {
    assert t[0..] == t;
    assert FindChar(t, '$', 0) == None;
    assert MathSplit(t, 0) == [t];
    assert t[0] != '$';
    assert RenderParts([t]) == RenderPart(t) + RenderParts([]);
  }

  /** `$x$` stays inline math, its content stripped. */
  lemma {:induction false} MixedInline(m: string)
    requires m != "" && '$' !in m
    ensures RenderMixed("$" + m + "$") == "$" + Strip(m) + "$"
  {
    var t := "$" + m + "$";
    InlineEnd(m);
    OneMath(t);
    InlinePart(m);
  }

  lemma {:induction false} InlinePart(m: string)
    requires m != "" && '$' !in m
    ensures RenderPart("$" + m + "$") == "$" + Strip(m) + "$"
  {
    var t := "$" + m + "$";
    assert t[1] == m[0] && t[1] != '$';
    assert t[..2] != "$$";
    assert t[..1] == "$" && t[|t| - 1..] == "$";
    assert t[1..|t| - 1] == m;
  }

  lemma {:induction false} InlineEnd(m: string)
    requires m != "" && '$' !in m
    ensures MathEnd("$" + m + "$", 0) == Some(|m| + 2)
  {
    var t := "$" + m + "$";
    assert t[1] == m[0] && t[1] != '$';
    forall j | 1 <= j < |t| - 1 ensures t[j] != '$' {
      assert t[j] == m[j - 1];
    }
    FindCharAt(t, '$', 1, |t| - 1);
  }

  /** `$$x$$` becomes display math `$ x $`, its content stripped. */
  lemma {:induction false} MixedDisplay(m: string)
    requires '$' !in m
    ensures RenderMixed("$$" + m + "$$") == "$ " + Strip(m) + " $"
  {
    var t := "$$" + m + "$$";
    DisplayEnd(m);
    OneMath(t);
    DisplayPart(m);
  }

  lemma {:induction false} DisplayPart(m: string)
    ensures RenderPart("$$" + m + "$$") == "$ " + Strip(m) + " $"
  {
    var t := "$$" + m + "$$";
    assert t[..2] == "$$" && t[|t| - 2..] == "$$";
    assert t[2..|t| - 2] == m;
  }

  lemma {:induction false} DisplayEnd(m: string)
    requires '$' !in m
    ensures MathEnd("$$" + m + "$$", 0) == Some(|m| + 4)
  {
    var t := "$$" + m + "$$";
    var n := |m| + 2;
    forall j | 2 <= j < n ensures t[j] != '$' {
      assert t[j] == m[j - 2];
    }
    FindPairAt(t, 2, n);
  }

  /** A text that is one math match renders as that match alone. */
  lemma {:induction false} OneMath(t: string)
    requires t != "" && t[0] == '$' && MathEnd(t, 0) == Some(|t|)
    ensures RenderMixed(t) == RenderPart(t)
  {
    assert FindChar(t, '$', 0) == Some(0);
    MathSplitEnd(t);
    assert t[0..0] == "" && t[0..|t|] == t;
    assert MathSplit(t, 0) == [""] + [t, ""];
    RenderPartsCons("", [t, ""]);
    RenderPartsCons(t, [""]);
    RenderPartsCons("", []);
  }

  lemma {:induction false} RenderPartsCons(p: string, ps: seq<string>)
    ensures RenderParts([p] + ps) == RenderPart(p) + RenderParts(ps)
  {
    assert ([p] + ps)[1..] == ps;
  }

  /** render_mixed_content_typst on a JSON value: a falsy one gives "", a
      string is rendered, anything else makes re.split raise. */
  function MixedOf(v: Value): Option<string>
  {
    if !Truthy(v) then Some("")
    else if v.Str? then Some(RenderMixed(v.s))
    else None
  }

  // ---- Paragraphs with images ----

  /** A figure for one image: the alt text stripped and escaped as the
      caption, the path normalised. */
  function FigureTypst(alt: string, path: string): string
  {
    var a := Strip(alt);
    var caption := if a != "" then EscapeTypst(a) else "";
    var p := NormalizePath(path);
    if caption != "" then "#figure(image(\"" + p + "\", width: 90%), caption: [" + caption + "])\n"
    else "#figure(image(\"" + p + "\", width: 90%))\n"
  }

  function PieceTypst(p: Piece): string
  {
    match p
    case Plain(x) => if !IsBlank(x) then EscapeTypst(x) + "\n\n" else ""
    case Image(alt, path) => FigureTypst(alt, path)
  }

  function PiecesTypst(ps: seq<Piece>): string
  {
    if ps == [] then "" else PieceTypst(ps[0]) + PiecesTypst(ps[1..])
  }

  /** render_paragraph_with_images */
  function ImagesTypst(t: string): string
  {
    PiecesTypst(Segments(t, 0))
  }

  lemma {:induction false} PiecesThree(a: Piece, b: Piece, c: Piece)
    ensures PiecesTypst([a, b, c]) == PieceTypst(a) + PieceTypst(b) + PieceTypst(c)
  {
    var ps := [a, b, c];
    assert ps[1..] == [b, c] && ps[1..][1..] == [c] && ps[1..][1..][1..] == [];
    assert PiecesTypst([c]) == PieceTypst(c);
    assert PiecesTypst([b, c]) == PieceTypst(b) + PieceTypst(c);
  }

  /** An image between two texts: the escaped text before it, the figure,
      then the escaped text after it, in that order. */
  lemma {:induction false} ImageBetweenTexts(before: string, alt: string, path: string, after: string)
    requires forall j :: 0 <= j < |before| ==> before[j] != '!'
    requires ']' !in alt && ')' !in path && path != ""
    requires forall j :: 0 <= j < |after| ==> after[j] != '!'
    requires !IsBlank(before) && !IsBlank(after)
    ensures ImagesTypst(before + RawImage(alt, path) + after) ==
      EscapeTypst(before) + "\n\n" + FigureTypst(alt, path) + EscapeTypst(after) + "\n\n"
  {
    OneImage(before, alt, path, after);
    PiecesThree(Plain(before), Image(alt, path), Plain(after));
    var x, fig, y := EscapeTypst(before), FigureTypst(alt, path), EscapeTypst(after);
    assert PieceTypst(Plain(before)) == x + "\n\n";
    assert PieceTypst(Plain(after)) == y + "\n\n";
    assert (x + "\n\n") + fig + (y + "\n\n") == x + "\n\n" + fig + y + "\n\n";
  }

  // ---- Sections ----

  /** `"=" * level`: an int repeats, a bool counts as 0 or 1, anything else
      raises TypeError. */
  function LevelOf(v: Value): Option<int>
  {
    match v
    case Int(n) => Some(n)
    case Bool(b) => Some(if b then 1 else 0)
    case _ => None
  }

  function HeadingTypst(f: Obj): Option<string>
  {
    var level := LevelOf(GetOr(f, "level", Int(1)));
    var text := MixedOf(GetOr(f, "text", Str("")));
    if level.None? || text.None? then None
    else Some(Repeat('=', level.value) + " " + text.value + "\n")
  }

  predicate IsEquals(c: char) { c == '=' }

  /** A heading is exactly `level` "=" signs, a space, the rendered text and
      a newline: reading the run of "=" back gives the level. */
  lemma {:induction false} HeadingMarker(f: Obj, n: nat, s: string)
    requires Get(f, "level") == Some(Int(n)) && Get(f, "text") == Some(Str(s))
    ensures HeadingTypst(f).Some?
    ensures var r := HeadingTypst(f).value;
      n < |r| && RunFrom(r, 0, IsEquals) == n && r[n] == ' ' &&
      r[n + 1..] == RenderMixed(s) + "\n"
  {
    var x := RenderMixed(s);
    assert HeadingTypst(f) == Some(Repeat('=', n) + " " + x + "\n");
    var r := HeadingTypst(f).value;
    HeadingShape(Repeat('=', n), x);
    RunFromUnique(r, 0, IsEquals, n);
  }

  lemma {:induction false} HeadingShape(marks: string, x: string)
    ensures var r := marks + " " + x + "\n";
      |marks| < |r| && (forall j :: 0 <= j < |marks| ==> r[j] == marks[j]) &&
      r[|marks|] == ' ' && r[|marks| + 1..] == x + "\n"
  {
    var r := marks + " " + x + "\n";
    assert r == marks + (" " + (x + "\n"));
  }

  /** One layer of "$$" or "$" around the math is removed. */
  function UnwrapMath(s: string): string
  {
    if StartsWith(s, "$$") && EndsWith(s, "$$") then Strip(PySlice(s, 2, -2))
    else if StartsWith(s, "$") && EndsWith(s, "$") then Strip(PySlice(s, 1, -1))
    else s
  }

  /** `get("math", get("latex", "")).strip()` unwrapped; a non-string value
      has no strip() and raises. */
  function MathOf(f: Obj): Option<string>
  {
    match GetOr(f, "math", GetOr(f, "latex", Str("")))
    case Str(s) => Some(UnwrapMath(Strip(s)))
    case _ => None
  }

  function EquationTypst(f: Obj): Option<string>
  {
    match MathOf(f)
    case None => None
    case Some(m) => Some("$ " + m + " $\n\n")
  }

  lemma {:induction false} NoDollarStrip(m: string)
    requires '$' !in m
    ensures '$' !in Strip(m)
  {
    var k := StripIsInfix(m);
    forall j | 0 <= j < |Strip(m)| ensures Strip(m)[j] != '$' {
      assert Strip(m)[j] == m[k + j];
    }
  }

  lemma {:induction false} StripUnspaced(s: string)
    requires s != [] && !IsSpace(s[0]) && !IsSpace(s[|s| - 1])
    ensures Strip(s) == s
  {
    assert LStrip(s) == s;
  }

  /** Math written as `$$m$$`, `$m$` or bare `m` all render as the display
      block `$ m $` with m stripped. */
  lemma {:induction false} EquationLayers(f: Obj, m: string, w: string)
    requires '$' !in m
    requires w == "$$" + m + "$$" || w == "$" + m + "$" || w == m
    requires Get(f, "math") == Some(Str(w))
    ensures EquationTypst(f) == Some("$ " + Strip(m) + " $\n\n")
  {
    assert MathOf(f) == Some(UnwrapMath(Strip(w)));
    if w == m {
      UnwrapBare(m);
    } else if w == "$$" + m + "$$" {
      UnwrapDisplay(m);
    } else {
      UnwrapInline(m);
    }
  }

  lemma {:induction false} UnwrapBare(m: string)
    requires '$' !in m
    ensures UnwrapMath(Strip(m)) == Strip(m)
  {
    NoDollarStrip(m);
    var s := Strip(m);
    assert s != [] ==> s[0] != '$';
  }

  lemma {:induction false} UnwrapDisplay(m: string)
    ensures UnwrapMath(Strip("$$" + m + "$$")) == Strip(m)
  {
    var w := "$$" + m + "$$";
    StripUnspaced(w);
    assert w[..2] == "$$" && w[|w| - 2..] == "$$";
    assert w[2..|w| - 2] == m;
  }

  lemma {:induction false} UnwrapInline(m: string)
    requires '$' !in m
    ensures UnwrapMath(Strip("$" + m + "$")) == Strip(m)
  {
    var w := "$" + m + "$";
    StripUnspaced(w);
    if m == [] {
      assert w == "$$";
      assert PySlice(w, 2, -2) == [];
    } else {
      assert w[1] == m[0];
      assert w[..2] != "$$";
      assert w[..1] == "$" && w[|w| - 1..] == "$";
      assert w[1..|w| - 1] == m;
    }
  }

  /** `get("text", "")` of a paragraph: `"![" in text` needs a container, and
      a truthy non-string then makes the renderer raise. */
  function ParagraphTypst(text: Value): Option<string>
  {
    match text
    case Str(s) =>
      if Contains(s, "![") && Contains(s, "](") then Some(ImagesTypst(s) + "\n\n")
      else Some(RenderMixed(s) + "\n\n")
    case List(_) => if Truthy(text) then None else Some("\n\n")
    case Object(_) => if Truthy(text) then None else Some("\n\n")
    case _ => None
  }

  /** A list item: a dict gives its "text", anything else its str(). */
  function ItemTypst(item: Value): Option<string>
  {
    if item.Object? then MixedOf(GetOr(item.fields, "text", Str("")))
    else match PyStr(item)
      case None => None
      case Some(s) => Some(RenderMixed(s))
  }

  /** The "- " line of one list item. */
  function ListLine(item: Value): Option<string>
  {
    match ItemTypst(item)
    case None => None
    case Some(t) => Some("- " + t)
  }

  method RenderList(xs: seq<Value>) returns (r: Option<seq<string>>)
    ensures r == MapAll(xs, ListLine)
  {
    var lines: seq<string> := [];
    var i := 0;
    while i < |xs|
      invariant 0 <= i <= |xs|
      invariant MapAll(xs[..i], ListLine) == Some(lines)
    {
      var t := ListLine(xs[i]);
      if t.None? {
        return None;
      }
      lines := lines + [t.value];
      i := i + 1;
      assert xs[..i][..i - 1] == xs[..i - 1];
    }
    assert xs[..i] == xs;
    r := Some(lines);
  }

  /** Lines each followed by a newline. */
  function Terminated(ls: seq<string>): string
  {
    if ls == [] then "" else ls[0] + "\n" + Terminated(ls[1..])
  }

  /** "\n".join(lines + [""]) ends every line with a newline. */
  lemma {:induction false} JoinClosed(ls: seq<string>)
    ensures Join("\n", ls + [""]) == Terminated(ls)
    decreases |ls|
  {
    if ls == [] {
      assert [] + [""] == [""];
    } else {
      assert (ls + [""])[1..] == ls[1..] + [""];
      JoinClosed(ls[1..]);
    }
  }

  function ListTypst(f: Obj): Option<string>
  {
    match Iter(OrEmpty(GetOr(f, "items", Null)))
    case None => None
    case Some(xs) =>
      match MapAll(xs, ListLine)
      case None => None
      case Some(ls) => Some(Join("\n", ls + [""]))
  }

  /** A list is one "- " line per item, in order, each ending in a newline. */
  lemma {:induction false} ListShape(f: Obj, xs: seq<Value>)
    requires Get(f, "items") == Some(List(xs))
    requires MapAll(xs, ListLine).Some?
    ensures ListTypst(f) == Some(Terminated(MapAll(xs, ListLine).value))
  {
    JoinClosed(MapAll(xs, ListLine).value);
  }

  /** One block of a solution step: a paragraph line, an equation line, or
      nothing for other types; a block that is not a dict raises. */
  function BlockLines(block: Value): Option<seq<string>>
  {
    if !block.Object? then None
    else
      var btype := Get(block.fields, "type");
      if btype == Some(Str("paragraph")) then
        match MixedOf(GetOr(block.fields, "text", Str("")))
        case None => None
        case Some(t) => Some(["    " + t])
      else if btype == Some(Str("equation")) then
        match MathOf(block.fields)
        case None => None
        case Some(m) => Some(["    $ " + m + " $"])
      else Some([])
  }

  function BlocksLines(blocks: seq<Value>): (r: Option<seq<string>>)
    ensures r.None? <==> exists i :: 0 <= i < |blocks| && BlockLines(blocks[i]).None?
    decreases |blocks|
  {
    if blocks == [] then Some([])
    else
      var init := blocks[..|blocks| - 1];
      assert forall i :: 0 <= i < |init| ==> init[i] == blocks[i];
      match BlocksLines(init)
      case None => None
      case Some(ls) =>
        match BlockLines(blocks[|blocks| - 1])
        case None => None
        case Some(t) => Some(ls + t)
  }

  /** One solution step: iterating it must work, then its blocks. */
  function StepLines(step: Value): Option<seq<string>>
  {
    match Iter(step)
    case None => None
    case Some(blocks) => BlocksLines(blocks)
  }

  function StepsLines(steps: seq<Value>): (r: Option<seq<string>>)
    ensures r.None? <==> exists i :: 0 <= i < |steps| && StepLines(steps[i]).None?
    decreases |steps|
  {
    if steps == [] then Some([])
    else
      var init := steps[..|steps| - 1];
      assert forall i :: 0 <= i < |init| ==> init[i] == steps[i];
      match StepsLines(init)
      case None => None
      case Some(ls) =>
        match StepLines(steps[|steps| - 1])
        case None => None
        case Some(t) => Some(ls + t)
  }

  /** The nested loop over steps and their blocks. */
  method RenderSteps(steps: seq<Value>) returns (r: Option<seq<string>>)
    ensures r == StepsLines(steps)
  {
    var lines: seq<string> := [];
    var i := 0;
    while i < |steps|
      invariant 0 <= i <= |steps|
      invariant StepsLines(steps[..i]) == Some(lines)
    {
      var blocks := Iter(steps[i]);
      if blocks.None? {
        assert StepLines(steps[i]).None?;
        return None;
      }
      var j := 0;
      var stepLines: seq<string> := [];
      while j < |blocks.value|
        invariant 0 <= j <= |blocks.value|
        invariant BlocksLines(blocks.value[..j]) == Some(stepLines)
      {
        var b := BlockLines(blocks.value[j]);
        if b.None? {
          assert BlocksLines(blocks.value).None?;
          assert StepLines(steps[i]).None?;
          return None;
        }
        stepLines := stepLines + b.value;
        j := j + 1;
        assert blocks.value[..j][..j - 1] == blocks.value[..j - 1];
      }
      assert blocks.value[..j] == blocks.value;
      lines := lines + stepLines;
      i := i + 1;
      assert steps[..i][..i - 1] == steps[..i - 1];
    }
    assert steps[..i] == steps;
    r := Some(lines);
  }

  /** The opening lines of an example problem. */
  function ExampleHead(title: string, statement: string): seq<string>
  {
    ["#exampleproblem(title: \"" + title + "\")[", "  *Problem Statement:* " + statement, "", "  #solution["]
  }

  function ExampleTypst(f: Obj): Option<string>
  {
    var title := EscapeOf(GetOr(f, "title", Str("Example Problem")));
    var statement := MixedOf(GetOr(f, "problem_statement", Str("")));
    var steps := Iter(OrEmpty(GetOr(f, "solution_steps", Null)));
    if title.None? || statement.None? || steps.None? then None
    else match StepsLines(steps.value)
      case None => None
      case Some(body) =>
        Some(Join("\n", ExampleHead(title.value, DropProblemPrefix(statement.value)) + body + ["  ]", "]\n"]))
  }

  /** render_section_typst */
  function SectionTypst(section: Value): Option<string>
  {
    if !Truthy(section) then Some("")
    else if !section.Object? then None
    else
      var f := section.fields;
      var stype := Get(f, "type");
      if stype == Some(Str("heading")) then HeadingTypst(f)
      else if stype == Some(Str("paragraph")) then ParagraphTypst(GetOr(f, "text", Str("")))
      else if stype == Some(Str("equation")) then EquationTypst(f)
      else if stype == Some(Str("example_problem")) then ExampleTypst(f)
      else if stype == Some(Str("list")) then ListTypst(f)
      else Some("")
  }

  /** render_section_typst, with its list and solution loops. */
  method RenderSection(section: Value) returns (r: Option<string>)
    ensures r == SectionTypst(section)
  {
    if !Truthy(section) || !section.Object? {
      return SectionTypst(section);
    }
    var f := section.fields;
    var stype := Get(f, "type");
    if stype == Some(Str("list")) {
      assert SectionTypst(section) == ListTypst(f);
      var items := Iter(OrEmpty(GetOr(f, "items", Null)));
      if items.None? {
        return None;
      }
      var lines := RenderList(items.value);
      if lines.None? {
        return None;
      }
      return Some(Join("\n", lines.value + [""]));
    } else if stype == Some(Str("example_problem")) {
      assert SectionTypst(section) == ExampleTypst(f);
      var title := EscapeOf(GetOr(f, "title", Str("Example Problem")));
      var statement := MixedOf(GetOr(f, "problem_statement", Str("")));
      var steps := Iter(OrEmpty(GetOr(f, "solution_steps", Null)));
      if title.None? || statement.None? || steps.None? {
        return None;
      }
      var body := RenderSteps(steps.value);
      if body.None? {
        return None;
      }
      var head := ExampleHead(title.value, DropProblemPrefix(statement.value));
      return Some(Join("\n", head + body.value + ["  ]", "]\n"]));
    }
    r := SectionTypst(section);
  }

  /** An empty section and a section of unknown type render as nothing. */
  lemma {:induction false} EmptyOrUnknown(section: Value)
    requires !Truthy(section) ||
      (section.Object? && Get(section.fields, "type") !in
        {Some(Str("heading")), Some(Str("paragraph")), Some(Str("equation")),
         Some(Str("example_problem")), Some(Str("list"))})
    ensures SectionTypst(section) == Some("")
  {
  }

  // ---- Chapters ----

  /** The chapter opening: a centred unit banner, or a level-one heading. */
  function TitleBlock(titleText: string): string
  {
    if IsUnitTitle(titleText) then UnitBanner(titleText) else "#pagebreak()\n= " + titleText + "\n"
  }

  function UnitBanner(titleText: string): string
  {
    "#pagebreak()\n#align(center)[#text(size: 24pt, weight: \"bold\")[" + titleText + "]]\n#v(1cm)\n"
  }

  /** render_page_typst: the title block (or nothing for a unit past the
      fifth), then each section, joined by newlines. */
  function PageTypst(chapter: Value): Option<string>
  {
    if !chapter.Object? then None
    else
      var title := GetOr(chapter.fields, "title", Null);
      var rendered := if Truthy(title) then MixedOf(title) else Some("");
      if rendered.None? then None
      else if Truthy(title) && SkippedUnit(Strip(rendered.value)) then Some("")
      else
        var head := if Truthy(title) then [TitleBlock(Strip(rendered.value))] else [];
        match Iter(OrEmpty(GetOr(chapter.fields, "sections", Null)))
        case None => None
        case Some(secs) =>
          match MapAll(secs, SectionTypst)
          case None => None
          case Some(body) => Some(Join("\n", head + body))
  }

  method RenderPage(chapter: Value) returns (r: Option<string>)
    ensures r == PageTypst(chapter)
  {
    if !chapter.Object? {
      return None;
    }
    var title := GetOr(chapter.fields, "title", Null);
    var secs := Iter(OrEmpty(GetOr(chapter.fields, "sections", Null)));
    var parts: seq<string> := [];
    if Truthy(title) {
      var rendered := MixedOf(title);
      if rendered.None? {
        return None;
      }
      var titleText := Strip(rendered.value);
      if SkippedUnit(titleText) {
        return Some("");
      }
      parts := [TitleBlock(titleText)];
    }
    if secs.None? {
      return None;
    }
    var body := RenderSections(secs.value);
    if body.None? {
      return None;
    }
    r := Some(Join("\n", parts + body.value));
  }

  /** The loop over a chapter's sections. */
  method RenderSections(secs: seq<Value>) returns (r: Option<seq<string>>)
    ensures r == MapAll(secs, SectionTypst)
  {
    var parts: seq<string> := [];
    var i := 0;
    while i < |secs|
      invariant 0 <= i <= |secs|
      invariant MapAll(secs[..i], SectionTypst) == Some(parts)
    {
      var s := RenderSection(secs[i]);
      if s.None? {
        return None;
      }
      parts := parts + [s.value];
      i := i + 1;
      assert secs[..i][..i - 1] == secs[..i - 1];
    }
    assert secs[..i] == secs;
    r := Some(parts);
  }

  /** A chapter titled "UNIT n" with n outside 1-5 and I-V renders as
      nothing at all. */
  lemma {:induction false} UnitPageSkipped(chapter: Value, n: string)
    requires n != [] && forall j :: 0 <= j < |n| ==> UnitChar(n[j])
    requires chapter.Object? && Get(chapter.fields, "title") == Some(Str("UNIT " + n))
    requires n !in ValidUnits
    ensures PageTypst(chapter) == Some("")
  {
    UnitTitleText(n);
    UnitTitle(n);
  }

  /** A chapter titled "UNIT n" with n in 1-5 or I-V opens with the centred
      unit banner. */
  lemma {:induction false} UnitPageBanner(chapter: Value, n: string)
    requires n != [] && forall j :: 0 <= j < |n| ==> UnitChar(n[j])
    requires chapter.Object? && Get(chapter.fields, "title") == Some(Str("UNIT " + n))
    requires n in ValidUnits && PageTypst(chapter).Some?
    ensures StartsWith(PageTypst(chapter).value, UnitBanner("UNIT " + n))
  {
    var t := "UNIT " + n;
    UnitTitleText(n);
    UnitTitle(n);
    assert TitleBlock(t) == UnitBanner(t);
    var secs := Iter(OrEmpty(GetOr(chapter.fields, "sections", Null))).value;
    var body := MapAll(secs, SectionTypst).value;
    assert PageTypst(chapter) == Some(Join("\n", [TitleBlock(t)] + body));
    JoinStarts(TitleBlock(t), body);
  }

  /** A unit title has nothing to escape and nothing to strip. */
  lemma {:induction false} UnitTitleText(n: string)
    requires n != [] && forall j :: 0 <= j < |n| ==> UnitChar(n[j])
    ensures MixedOf(Str("UNIT " + n)) == Some("UNIT " + n)
    ensures Strip("UNIT " + n) == "UNIT " + n
  {
    var t := "UNIT " + n;
    UnitTitleChars(n);
    assert !IsSpace(t[0]);
    MixedPlain(t);
    EscapePlain(t);
    StripUnspaced(t);
  }

  lemma {:induction false} UnitTitleChars(n: string)
    requires n != [] && forall j :: 0 <= j < |n| ==> UnitChar(n[j])
    ensures var t := "UNIT " + n;
      '$' !in t && !IsSpace(t[|t| - 1]) && forall j :: 0 <= j < |t| ==> !Special(t[j])
  {
    var t := "UNIT " + n;
    forall j | 0 <= j < |t| ensures !Special(t[j]) && t[j] != '$' {
      if j >= 5 { assert t[j] == n[j - 5] && UnitChar(n[j - 5]); }
    }
    assert t[|t| - 1] == n[|n| - 1] && UnitChar(n[|n| - 1]);
  }

  lemma {:induction false} JoinStarts(a: string, xs: seq<string>)
    ensures StartsWith(Join("\n", [a] + xs), a)
  {
    if xs != [] {
      assert ([a] + xs)[1..] == xs;
      StartsWithAppend(a, "\n" + Join("\n", xs));
      assert a + "\n" + Join("\n", xs) == a + ("\n" + Join("\n", xs));
    } else {
      assert [a] + xs == [a];
    }
  }

  /** Without a title, a chapter is its sections joined by newlines. */
  lemma {:induction false} UntitledPage(chapter: Value, secs: seq<Value>)
    requires chapter.Object? && Get(chapter.fields, "title") == None
    requires Get(chapter.fields, "sections") == Some(List(secs))
    ensures PageTypst(chapter).Some? <==> forall i :: 0 <= i < |secs| ==> SectionTypst(secs[i]).Some?
    ensures PageTypst(chapter).Some? ==> PageTypst(chapter) == Some(Join("\n", MapAll(secs, SectionTypst).value))
  {
    if MapAll(secs, SectionTypst).Some? {
      assert [] + MapAll(secs, SectionTypst).value == MapAll(secs, SectionTypst).value;
    }
  }

  // ---- Output cleanup ----

  /** The sanitizer's replacements, applied in this order: non-breaking and
      zero-width spaces, then stray code fences. */
  const SanitizeRules: seq<(string, string)> :=
    [("\U{00A0}", " "), ("\U{200B}", ""), ("```typst", ""), ("```", "")]

  predicate ValidRules(rules: seq<(string, string)>)
  {
    forall i :: 0 <= i < |rules| ==> |rules[i].0| > 0
  }

  /** The replacements applied one after the other. */
  function ApplyRules(t: string, rules: seq<(string, string)>): string
    requires ValidRules(rules)
    decreases |rules|
  {
    if rules == [] then t
    else
      var last := rules[|rules| - 1];
      ReplaceAll(ApplyRules(t, rules[..|rules| - 1]), last.0, last.1)
  }

  /** Removing every "```" leaves none: a run of backticks loses whole
      triples, and a shorter run cannot meet another across the gap. */
  lemma {:induction false} NoFence(s: string)
    ensures !Contains(ReplaceAll(s, "```", ""), "```")
    decreases |s|
  {
    if |s| > 0 {
      if StartsWith(s, "```") {
        NoFence(s[3..]);
        assert ReplaceAll(s, "```", "") == ReplaceAll(s[3..], "```", "");
      } else {
        NoFence(s[1..]);
        TickPair(s[1..]);
        assert ReplaceAll(s, "```", "") == [s[0]] + ReplaceAll(s[1..], "```", "");
      }
    }
  }

  lemma {:induction false} TickOne(s: string)
    ensures StartsWith(ReplaceAll(s, "```", ""), "`") ==> StartsWith(s, "`")
  {
    if |s| > 0 && StartsWith(s, "```") {
      assert s[..1] == "`";
    }
  }

  lemma {:induction false} TickPair(s: string)
    ensures StartsWith(ReplaceAll(s, "```", ""), "``") ==> StartsWith(s, "``")
  {
    if |s| > 0 {
      if StartsWith(s, "```") {
        assert s[..2] == "``";
      } else {
        TickOne(s[1..]);
        var r := ReplaceAll(s[1..], "```", "");
        assert ReplaceAll(s, "```", "") == [s[0]] + r;
        if StartsWith([s[0]] + r, "``") {
          assert r[..1] == ([s[0]] + r)[1..2];
          assert s[..2] == [s[0]] + s[1..][..1];
        }
      }
    }
  }

  /** Replacing with text that lacks c never brings c in. */
  lemma {:induction false} KeepsOut(s: string, pat: string, rep: string, c: char)
    requires |pat| > 0 && c !in s && c !in rep
    ensures c !in ReplaceAll(s, pat, rep)
    decreases |s|
  {
    if |s| > 0 {
      if StartsWith(s, pat) {
        assert forall j :: 0 <= j < |s| - |pat| ==> s[|pat|..][j] == s[j + |pat|];
        KeepsOut(s[|pat|..], pat, rep, c);
      } else {
        assert forall j :: 0 <= j < |s| - 1 ==> s[1..][j] == s[j + 1];
        KeepsOut(s[1..], pat, rep, c);
      }
    }
  }

  lemma {:induction false} SanitizeSteps(text: string)
    ensures ApplyRules(text, SanitizeRules) ==
      ReplaceAll(ReplaceAll(ReplaceAll(ReplaceAll(text, "\U{00A0}", " "), "\U{200B}", ""), "```typst", ""), "```", "")
  {
    var rs := SanitizeRules;
    assert rs[..1][..0] == [] && rs[..2][..1] == rs[..1] && rs[..3][..2] == rs[..2] && rs[..4][..3] == rs[..3];
    assert ApplyRules(text, rs[..0]) == text;
    assert ApplyRules(text, rs[..1]) == ReplaceAll(text, "\U{00A0}", " ");
    assert ApplyRules(text, rs[..2]) == ReplaceAll(ApplyRules(text, rs[..1]), "\U{200B}", "");
    assert ApplyRules(text, rs[..3]) == ReplaceAll(ApplyRules(text, rs[..2]), "```typst", "");
    assert rs[..4] == rs;
  }

  /** sanitize_typst_output: no non-breaking space, no zero-width space and
      no code fence survives. */
  method Sanitize(text: string) returns (r: string)
    ensures r == ApplyRules(text, SanitizeRules)
    ensures '\U{00A0}' !in r && '\U{200B}' !in r && !Contains(r, "```")
  {
    r := text;
    var i := 0;
    while i < |SanitizeRules|
      invariant 0 <= i <= |SanitizeRules|
      invariant r == ApplyRules(text, SanitizeRules[..i])
    {
      r := ReplaceAll(r, SanitizeRules[i].0, SanitizeRules[i].1);
      i := i + 1;
      assert SanitizeRules[..i][..i - 1] == SanitizeRules[..i - 1];
    }
    assert SanitizeRules[..i] == SanitizeRules;
    SanitizeSteps(text);
    var a := ReplaceAll(text, "\U{00A0}", " ");
    ReplaceCharGone(text, '\U{00A0}', " ");
    var b := ReplaceAll(a, "\U{200B}", "");
    ReplaceCharGone(a, '\U{200B}', "");
    KeepsOut(a, "\U{200B}", "", '\U{00A0}');
    var c := ReplaceAll(b, "```typst", "");
    KeepsOut(b, "```typst", "", '\U{00A0}');
    KeepsOut(b, "```typst", "", '\U{200B}');
    KeepsOut(c, "```", "", '\U{00A0}');
    KeepsOut(c, "```", "", '\U{200B}');
    NoFence(c);
  }
}
