/** backend/src/renderer_latex.py: escaping, brace balancing, the section and
    chapter renderers, the structural sanitizer passes and the removal of
    empty tables.  render_mixed_content_latex is not part of this model: the
    renderers take it as the parameter `mixed`. */
module Latex {
  import opened TextUtil
  import opened JsonValue
  import opened Markup

  // ---- Escaping ----

  /** The four characters escape_latex protects with a backslash. */
  predicate Reserved(c: char) { c == '&' || c == '%' || c == '#' || c == '_' }

  /** The replacement table of escape_latex; characters outside it pass
      through. */
  function EscapeLatexChar(c: char): string
  {
    if Reserved(c) then ['\\', c] else SymbolLatex(c)
  }

  /** The rest of the table: symbols spelled as LaTeX commands. */
  function SymbolLatex(c: char): string
  {
    match c
    case '~' => "\\textasciitilde{}"
    case '^' => "\\textasciicircum{}"
    case '\U{00B2}' => "$^2$"
    case '\U{00B3}' => "$^3$"
    case '\U{00B0}' => "$^\\circ$"
    case '\U{2014}' => "---"
    case '\U{2013}' => "--"
    case '\U{2264}' => "$\\le$"
    case '\U{2265}' => "$\\ge$"
    case '\U{00D7}' => "$\\times$"
    case '\U{22C5}' => "$\\cdot$"
    case '\U{2192}' => "$\\rightarrow$"
    case '\U{2190}' => "$\\leftarrow$"
    case '\U{2191}' => "$\\uparrow$"
    case '\U{2193}' => "$\\downarrow$"
    case '\U{221E}' => "$\\infty$"
    case '\U{2211}' => "$\\sum$"
    case '\U{220F}' => "$\\prod$"
    case '\U{222B}' => "$\\int$"
    case '\U{2202}' => "$\\partial$"
    case '\U{221A}' => "$\\sqrt{}$"
    case '\U{03B1}' => "$\\alpha$"
    case '\U{03B2}' => "$\\beta$"
    case '\U{03B3}' => "$\\gamma$"
    case '\U{03B4}' => "$\\delta$"
    case '\U{03B7}' => "$\\eta$"
    case '\U{03B8}' => "$\\theta$"
    case '\U{03BC}' => "$\\mu$"
    case '\U{03C0}' => "$\\pi$"
    case '\U{03C1}' => "$\\rho$"
    case '\U{03C3}' => "$\\sigma$"
    case '\U{03C4}' => "$\\tau$"
    case '\U{03C6}' => "$\\phi$"
    case '\U{03C8}' => "$\\psi$"
    case '\U{03C9}' => "$\\omega$"
    case '\U{0394}' => "$\\Delta$"
    case '\U{03A3}' => "$\\Sigma$"
    case '\U{03A9}' => "$\\Omega$"
    case _ => [c]
  }

  /** "".join(replacements.get(c, c) for c in text) */
  function EscapeChars(s: string): string
  {
    if s == [] then "" else EscapeLatexChar(s[0]) + EscapeChars(s[1..])
  }

  const Item := "\\item"
  const Bullet := "\\textbullet{} "

  /** escape_latex on a string: the table, then stray list items turned
      into bullets. */
  function EscapeLatex(s: string): string
  {
    if s == "" then "" else ReplaceAll(EscapeChars(s), Item, Bullet)
  }

  /** One item of an iterable passed to escape_latex: a single character
      goes through the table, a longer string is not a key and stays. */
  function EscapeItemL(x: string): string
  {
    if |x| == 1 then EscapeLatexChar(x[0]) else x
  }

  function EscapeItemsL(xs: seq<Value>): Option<string>
  {
    if xs == [] then Some("")
    else if !xs[0].Str? then None
    else match EscapeItemsL(xs[1..])
      case None => None
      case Some(t) => Some(EscapeItemL(xs[0].s) + t)
  }

  /** escape_latex on any JSON value: a falsy one gives "", an iterable of
      strings is joined and its list items neutralised, anything else
      raises. */
  function EscapeLatexOf(v: Value): Option<string>
  {
    if !Truthy(v) then Some("")
    else match Iter(v)
      case None => None
      case Some(xs) =>
        match EscapeItemsL(xs)
        case None => None
        case Some(t) => Some(ReplaceAll(t, Item, Bullet))
  }

  /** Every reserved character has a backslash right before it; the first
      one may lean on a backslash just before the string. */
  predicate Guarded(s: string, afterSlash: bool)
  {
    (|s| > 0 && Reserved(s[0]) ==> afterSlash) &&
    forall i :: 1 <= i < |s| && Reserved(s[i]) ==> s[i - 1] == '\\'
  }

  predicate Escaped(s: string) { Guarded(s, false) }

  lemma {:induction false} GuardedAppend(a: string, b: string, afterSlash: bool)
    requires Guarded(a, afterSlash)
    requires Guarded(b, if a == [] then afterSlash else a[|a| - 1] == '\\')
    ensures Guarded(a + b, afterSlash)
  {
    var s := a + b;
    forall i | 1 <= i < |s| && Reserved(s[i]) ensures s[i - 1] == '\\' {
      if i >= |a| + 1 {
        assert s[i] == b[i - |a|] && s[i - 1] == b[i - |a| - 1];
      } else if i == |a| {
        assert s[i] == b[0];
      } else {
        assert s[i] == a[i] && s[i - 1] == a[i - 1];
      }
    }
  }

  /** No replacement in the table brings in a reserved character. */
  lemma {:induction false} SymbolSafe(c: char)
    requires !Reserved(c)
    ensures forall i :: 0 <= i < |SymbolLatex(c)| ==> !Reserved(SymbolLatex(c)[i])
  {
    // the table in three parts, so that each replacement is checked alone
    if '\U{0394}' <= c <= '\U{03C9}' {
      GreekSafe(c);
    } else if '\U{2000}' <= c {
      MathSymbolSafe(c);
    } else {
      LatinSymbolSafe(c);
    }
  }

  /** The Greek letters. */
  lemma {:induction false} GreekSafe(c: char)
    requires !Reserved(c) && '\U{0394}' <= c <= '\U{03C9}'
    ensures forall i :: 0 <= i < |SymbolLatex(c)| ==> !Reserved(SymbolLatex(c)[i])
  {
    match c
    case '\U{03B1}' =>
    case '\U{03B2}' =>
    case '\U{03B3}' =>
    case '\U{03B4}' =>
    case '\U{03B7}' =>
    case '\U{03B8}' =>
    case '\U{03BC}' =>
    case '\U{03C0}' =>
    case '\U{03C1}' =>
    case '\U{03C3}' =>
    case '\U{03C4}' =>
    case '\U{03C6}' =>
    case '\U{03C8}' =>
    case '\U{03C9}' =>
    case '\U{0394}' =>
    case '\U{03A3}' =>
    case '\U{03A9}' =>
    case _ =>
  }

  /** Dashes, relations, arrows and operators. */
  lemma {:induction false} MathSymbolSafe(c: char)
    requires !Reserved(c) && '\U{2000}' <= c
    ensures forall i :: 0 <= i < |SymbolLatex(c)| ==> !Reserved(SymbolLatex(c)[i])
  {
    match c
    case '\U{2014}' =>
    case '\U{2013}' =>
    case '\U{2264}' =>
    case '\U{2265}' =>
    case '\U{22C5}' =>
    case '\U{2192}' =>
    case '\U{2190}' =>
    case '\U{2191}' =>
    case '\U{2193}' =>
    case '\U{221E}' =>
    case '\U{2211}' =>
    case '\U{220F}' =>
    case '\U{222B}' =>
    case '\U{2202}' =>
    case '\U{221A}' =>
    case _ =>
  }

  /** Tilde, caret and the Latin-1 symbols. */
  lemma {:induction false} LatinSymbolSafe(c: char)
    requires !Reserved(c) && !('\U{0394}' <= c <= '\U{03C9}') && c < '\U{2000}'
    ensures forall i :: 0 <= i < |SymbolLatex(c)| ==> !Reserved(SymbolLatex(c)[i])
  {
    match c
    case '~' =>
    case '^' =>
    case '\U{00B2}' =>
    case '\U{00B3}' =>
    case '\U{00B0}' =>
    case '\U{00D7}' =>
    case _ =>
  }

  lemma {:induction false} EscapeCharGuarded(c: char)
    ensures Escaped(EscapeLatexChar(c))
  {
    if !Reserved(c) { SymbolSafe(c); }
  }

  lemma {:induction false} EscapeCharsGuarded(s: string)
    ensures Escaped(EscapeChars(s))
    decreases |s|
  {
    if s != [] {
      EscapeCharGuarded(s[0]);
      EscapeCharsGuarded(s[1..]);
      var a := EscapeLatexChar(s[0]);
      GuardedAppend(a, EscapeChars(s[1..]), false);
    }
  }

  /** Turning "\item" into a bullet keeps every reserved character behind
      its backslash: the character after "\item" cannot be guarded by the
      'm'. */
  lemma {:induction false} BulletGuarded(s: string, afterSlash: bool)
    requires Guarded(s, afterSlash)
    ensures Guarded(ReplaceAll(s, Item, Bullet), afterSlash)
    decreases |s|
  {
    if |s| > 0 {
      if StartsWith(s, Item) {
        var rest := s[|Item|..];
        assert s[4] == 'm';
        assert Guarded(rest, false) by {
          forall i | 1 <= i < |rest| && Reserved(rest[i]) ensures rest[i - 1] == '\\' {
            assert rest[i] == s[i + 5] && rest[i - 1] == s[i + 4];
          }
          if |rest| > 0 { assert rest[0] == s[5]; }
        }
        BulletGuarded(rest, false);
        GuardedAppend(Bullet, ReplaceAll(rest, Item, Bullet), afterSlash);
      } else {
        var rest := s[1..];
        assert Guarded(rest, s[0] == '\\') by {
          forall i | 1 <= i < |rest| && Reserved(rest[i]) ensures rest[i - 1] == '\\' {
            assert rest[i] == s[i + 1] && rest[i - 1] == s[i];
          }
          if |rest| > 0 { assert rest[0] == s[1]; }
        }
        BulletGuarded(rest, s[0] == '\\');
        GuardedAppend([s[0]], ReplaceAll(rest, Item, Bullet), afterSlash);
      }
    }
  }

  /** Every &, %, # and _ in escaped text follows a backslash. */
  lemma {:induction false} EscapeLatexEscaped(s: string)
    ensures Escaped(EscapeLatex(s))
  {
    if s != "" {
      EscapeCharsGuarded(s);
      BulletGuarded(EscapeChars(s), false);
    }
  }

  /** Characters outside the table pass through: such text only has its
      "\item"s turned into bullets, and "" stays "". */
  lemma {:induction false} EscapeLatexPlain(s: string)
    requires forall i :: 0 <= i < |s| ==> EscapeLatexChar(s[i]) == [s[i]]
    ensures EscapeLatex(s) == ReplaceAll(s, Item, Bullet)
  {
    EscapeCharsPlain(s);
  }

  lemma {:induction false} EscapeCharsPlain(s: string)
    requires forall i :: 0 <= i < |s| ==> EscapeLatexChar(s[i]) == [s[i]]
    ensures EscapeChars(s) == s
    decreases |s|
  {
    if s != [] {
      assert forall i :: 0 <= i < |s| - 1 ==> s[1..][i] == s[i + 1];
      EscapeCharsPlain(s[1..]);
    }
  }

  /** A lone "\item" becomes a bullet. */
  lemma {:induction false} ItemBecomesBullet()
    ensures EscapeLatex(Item) == Bullet
  {
    assert EscapeLatexChar('\\') == "\\" && EscapeLatexChar('i') == "i" && EscapeLatexChar('t') == "t";
    assert EscapeLatexChar('e') == "e" && EscapeLatexChar('m') == "m";
    EscapeLatexPlain(Item);
    assert StartsWith(Item, Item);
    assert ReplaceAll(Item, Item, Bullet) == Bullet + ReplaceAll("", Item, Bullet);
  }

  // ---- Brace balancing ----

  /** Unescaped opening braces minus unescaped closing braces, counted as
      auto_balance_braces counts them. */
  function Net(t: string): int
  {
    (Count(t, "{") - Count(t, "\\{")) - (Count(t, "}") - Count(t, "\\}"))
  }

  /** auto_balance_braces on a string. */
  function BalanceBraces(t: string): string
  {
    if t == "" then ""
    else
      var n := Net(t);
      if n > 0 then t + Repeat('}', n)
      else if n < 0 then Repeat('{', -n) + t
      else t
  }

  /** auto_balance_braces on a JSON value: a falsy one gives "", a string is
      balanced.  A number, a bool or a dict has no `.count` and raises.  A
      non-empty list does have `.count` (it counts equal items); it raises
      at the concatenation when its net count is not zero, and otherwise
      comes back as the list itself, which the caller formats with str().
      str() of a list is not modelled, so every non-string truthy value
      gives None here. */
  function BalanceOf(v: Value): Option<string>
  {
    if !Truthy(v) then Some("")
    else if v.Str? then Some(BalanceBraces(v.s))
    else None
  }

  lemma {:induction false} CountCharAppend(a: string, b: string, c: char)
    ensures Count(a + b, [c]) == Count(a, [c]) + Count(b, [c])
    decreases |a|
  {
    if a != [] {
      assert (a + b)[1..] == a[1..] + b;
      CountCharAppend(a[1..], b, c);
    } else {
      assert a + b == b;
    }
  }

  /** A two-character pattern whose characters differ: occurrences in a
      concatenation are those of each side plus one across the seam. */
  lemma {:induction false} CountPairAppend(a: string, b: string, p: string)
    requires |p| == 2 && p[0] != p[1]
    ensures Count(a + b, p) == Count(a, p) + Count(b, p) +
      (if a != [] && b != [] && a[|a| - 1] == p[0] && b[0] == p[1] then 1 else 0)
    decreases |a|
  {
    var s := a + b;
    if a == [] {
      assert s == b;
    } else if |a| == 1 {
      assert Count(a, p) == 0 by { assert a[1..] == []; }
      if StartsWith(s, p) {
        assert s[2..] == b[1..];
        assert !StartsWith(b, p);
      } else {
        assert s[1..] == b;
      }
    } else {
      assert s[1..] == a[1..] + b;
      if StartsWith(s, p) {
        assert StartsWith(a, p) by { assert a[..2] == s[..2]; }
        assert s[2..] == a[2..] + b;
        CountPairAppend(a[2..], b, p);
      } else {
        assert !StartsWith(a, p) by { assert a[..2] == s[..2]; }
        CountPairAppend(a[1..], b, p);
      }
    }
  }

  lemma {:induction false} CountAbsent(s: string, p: string)
    requires |p| > 0 && p[0] !in s
    ensures Count(s, p) == 0
    decreases |s|
  {
    if s != [] {
      assert s[0] != p[0];
      assert forall j :: 0 <= j < |s| - 1 ==> s[1..][j] == s[j + 1];
      CountAbsent(s[1..], p);
    }
  }

  lemma {:induction false} CountRepeat(c: char, n: nat)
    ensures Count(Repeat(c, n), [c]) == n
    decreases n
  {
    if n > 0 {
      var r := Repeat(c, n);
      assert r[..1] == [c];
      assert r[1..] == Repeat(c, n - 1);
      CountRepeat(c, n - 1);
    }
  }

  /** The counts of a run of one brace character. */
  lemma {:induction false} BraceRun(c: char, n: nat)
    requires c == '{' || c == '}'
    ensures var r := Repeat(c, n);
      Count(r, [c]) == n && Count(r, "\\{") == 0 && Count(r, "\\}") == 0 &&
      Count(r, if c == '{' then "}" else "{") == 0
  {
    var r := Repeat(c, n);
    CountRepeat(c, n);
    CountAbsent(r, "\\{");
    CountAbsent(r, "\\}");
    CountAbsent(r, if c == '{' then "}" else "{");
  }

  /** The balanced text is the input with only braces added at the ends:
      closing braces after it when opens are in excess, opening braces
      before it when closes are. */
  lemma {:induction false} BalanceKeepsText(t: string)
    ensures BalanceBraces(t) ==
      Repeat('{', if Net(t) < 0 then -Net(t) else 0) + t + Repeat('}', if Net(t) > 0 then Net(t) else 0)
  {
  }

  /** After balancing, unescaped braces match, except for one brace when
      the text ends with a backslash and closing braces are appended: the
      first of them is then counted as the escaped "\}". */
  lemma {:induction false} BalanceNet(t: string)
    ensures Net(BalanceBraces(t)) == if Net(t) > 0 && EndsWith(t, "\\") then 1 else 0
  {
    var n := Net(t);
    if t != "" && n > 0 {
      var r := Repeat('}', n);
      BraceRun('}', n);
      CountCharAppend(t, r, '{');
      CountCharAppend(t, r, '}');
      CountPairAppend(t, r, "\\{");
      CountPairAppend(t, r, "\\}");
      assert r[0] == '}';
      assert EndsWith(t, "\\") <==> t[|t| - 1] == '\\' by {
        assert EndsWith(t, "\\") ==> t[|t| - 1..] == "\\";
        if t[|t| - 1] == '\\' { assert t[|t| - 1..] == "\\"; }
      }
    } else if t != "" && n < 0 {
      var l := Repeat('{', -n);
      BraceRun('{', -n);
      CountCharAppend(l, t, '{');
      CountCharAppend(l, t, '}');
      CountPairAppend(l, t, "\\{");
      CountPairAppend(l, t, "\\}");
    }
  }

  // ---- Paragraphs with images ----

  /** A figure environment for one image: the stripped alt text escaped as
      the caption (empty when there is none), the path normalised. */
  function FigureLatex(alt: string, path: string): string
  {
    var a := Strip(alt);
    var caption := if a != "" then EscapeLatex(a) else "";
    "\\begin{figure}[h]\n\\centering\n\\includegraphics[width=0.9\\textwidth]{" + NormalizePath(path) +
    "}\n\\caption{" + caption + "}\n\\end{figure}\n"
  }

  function PieceLatex(p: Piece): string
  {
    match p
    case Plain(x) => if !IsBlank(x) then EscapeLatex(x) + "\n\n" else ""
    case Image(alt, path) => FigureLatex(alt, path)
  }

  function PiecesLatex(ps: seq<Piece>): string
  {
    if ps == [] then "" else PieceLatex(ps[0]) + PiecesLatex(ps[1..])
  }

  /** render_paragraph_with_images */
  function ImagesLatex(t: string): string
  {
    PiecesLatex(Segments(t, 0))
  }

  lemma {:induction false} PiecesLatexThree(a: Piece, b: Piece, c: Piece)
    ensures PiecesLatex([a, b, c]) == PieceLatex(a) + PieceLatex(b) + PieceLatex(c)
  {
    var ps := [a, b, c];
    assert ps[1..] == [b, c] && ps[1..][1..] == [c] && ps[1..][1..][1..] == [];
    assert PiecesLatex([c]) == PieceLatex(c);
    assert PiecesLatex([b, c]) == PieceLatex(b) + PieceLatex(c);
  }

  /** An image between two texts becomes the escaped text before it, one
      figure environment, then the escaped text after it. */
  lemma {:induction false} ImageBetweenTextsLatex(before: string, alt: string, path: string, after: string)
    requires forall j :: 0 <= j < |before| ==> before[j] != '!'
    requires ']' !in alt && ')' !in path && path != ""
    requires forall j :: 0 <= j < |after| ==> after[j] != '!'
    requires !IsBlank(before) && !IsBlank(after)
    ensures ImagesLatex(before + RawImage(alt, path) + after) ==
      EscapeLatex(before) + "\n\n" + FigureLatex(alt, path) + EscapeLatex(after) + "\n\n"
  {
    OneImage(before, alt, path, after);
    PiecesLatexThree(Plain(before), Image(alt, path), Plain(after));
  }

  /** The figure's path has no backslash, and an image under the output
      directory is referenced relative to it. */
  lemma {:induction false} FigurePath(alt: string, rel: string)
    requires rel != [] && !IsSpace(rel[|rel| - 1]) && '\\' !in rel
    ensures FigureLatex(alt, OutputPrefix + rel) ==
      "\\begin{figure}[h]\n\\centering\n\\includegraphics[width=0.9\\textwidth]{" + rel +
      "}\n\\caption{" + (if Strip(alt) != "" then EscapeLatex(Strip(alt)) else "") + "}\n\\end{figure}\n"
  {
    OutputPathRelative(rel);
  }

  // ---- Sections ----

  /** render_mixed_content_latex on a JSON value: "" for a falsy one, the
      rendering of a string, and a raise for anything else. */
  function MixedOfL(mixed: string -> string, v: Value): Option<string>
  {
    if !Truthy(v) then Some("")
    else if v.Str? then Some(mixed(v.s))
    else None
  }

  /** The rendered text of a section's field, balanced. */
  function BalancedMixed(mixed: string -> string, v: Value): Option<string>
  {
    match MixedOfL(mixed, v)
    case None => None
    case Some(t) => Some(BalanceBraces(t))
  }

  /** Which heading a level selects: 1, 2 and 3 (or True), 4 and beyond,
      or none; a string or null level raises at `>= 4`. */
  function HeadingRank(level: Value): Option<nat>
  {
    match level
    case Int(n) => Some(if 1 <= n <= 3 then n else if n >= 4 then 4 else 0)
    case Bool(b) => Some(if b then 1 else 0)
    case Float(x) =>
      Some(if x == 1.0 then 1 else if x == 2.0 then 2 else if x == 3.0 then 3 else if x >= 4.0 then 4 else 0)
    case _ => None
  }

  /** A starred (unnumbered) heading with its table-of-contents entry. */
  function TocHeading(unit: string, text: string): string
  {
    "\\" + unit + "*{" + text + "}\n\\addcontentsline{toc}{" + unit + "}{" + text + "}\n"
  }

  /** The heading a rank selects. */
  function HeadingCommand(rank: nat, text: string): string
  {
    if rank == 1 then TocHeading("chapter", text)
    else if rank == 2 then TocHeading("section", text)
    else if rank == 3 then TocHeading("subsection", text)
    else if rank == 4 then "\\subsubsection*{" + text + "}\n"
    else ""
  }

  function HeadingLatex(mixed: string -> string, f: Obj): Option<string>
  {
    var text := BalancedMixed(mixed, GetOr(f, "text", Str("")));
    var rank := HeadingRank(GetOr(f, "level", Int(1)));
    if text.None? || rank.None? then None
    else Some(HeadingCommand(rank.value, text.value))
  }

  /** The sectioning units of levels 1, 2 and 3. */
  const Sectioning: seq<string> := ["chapter", "section", "subsection"]

  /** Integer levels: 1 to 3 give the starred command plus its contents
      entry, 4 and beyond a starred subsubsection, 0 and below nothing. */
  lemma {:induction false} HeadingLevels(mixed: string -> string, f: Obj, n: int, text: string)
    requires GetOr(f, "level", Int(1)) == Int(n)
    requires BalancedMixed(mixed, GetOr(f, "text", Str(""))) == Some(text)
    ensures n <= 0 ==> HeadingLatex(mixed, f) == Some("")
    ensures n >= 4 ==> HeadingLatex(mixed, f) == Some("\\subsubsection*{" + text + "}\n")
    ensures 1 <= n <= 3 ==> HeadingLatex(mixed, f) == Some(TocHeading(Sectioning[n - 1], text))
  {
    if 1 <= n <= 3 {
      assert Sectioning[n - 1] == if n == 1 then "chapter" else if n == 2 then "section" else "subsection";
    }
  }

  /** A level missing from the heading counts as 1. */
  lemma {:induction false} HeadingDefault(mixed: string -> string, f: Obj, text: string)
    requires Get(f, "level") == None
    requires BalancedMixed(mixed, GetOr(f, "text", Str(""))) == Some(text)
    ensures HeadingLatex(mixed, f) == Some(TocHeading("chapter", text))
  {
  }

  /** A paragraph: a string with image syntax goes through the figure
      renderer, any other string through the mixed renderer, both balanced;
      an empty list or dict renders as the bare paragraph break, a
      non-empty one and a scalar raise. */
  function ParagraphLatex(mixed: string -> string, text: Value): Option<string>
  {
    match text
    case Str(s) =>
      if Contains(s, "![") && Contains(s, "](") then Some(BalanceBraces(ImagesLatex(s)) + "\n\n")
      else Some(BalanceBraces(MixedOfL(mixed, text).value) + "\n\n")
    case List(_) => if Truthy(text) then None else Some("\n\n")
    case Object(_) => if Truthy(text) then None else Some("\n\n")
    case _ => None
  }

  /** An equation environment around the balanced "latex" field. */
  function EquationLatex(f: Obj): Option<string>
  {
    match BalanceOf(GetOr(f, "latex", Str("")))
    case None => None
    case Some(b) => Some("\\begin{equation}\n" + b + "\n\\end{equation}\n")
  }

  /** The "  \item" line of one list item: a dict gives its "text", anything
      else its str(). */
  function ItemLine(mixed: string -> string, item: Value): Option<string>
  {
    var text := if item.Object? then Some(GetOr(item.fields, "text", Str("")))
      else match PyStr(item) case None => None case Some(s) => Some(Str(s));
    if text.None? then None
    else match BalancedMixed(mixed, text.value)
      case None => None
      case Some(t) => Some("  \\item " + t)
  }

  method RenderItems(mixed: string -> string, xs: seq<Value>) returns (r: Option<seq<string>>)
    ensures r == MapAll(xs, x => ItemLine(mixed, x))
  {
    var lines: seq<string> := [];
    var i := 0;
    while i < |xs|
      invariant 0 <= i <= |xs|
      invariant MapAll(xs[..i], x => ItemLine(mixed, x)) == Some(lines)
    {
      var t := ItemLine(mixed, xs[i]);
      if t.None? {
        return None;
      }
      lines := lines + [t.value];
      i := i + 1;
      assert xs[..i][..i - 1] == xs[..i - 1];
    }
    assert xs[..i] == xs;
    r := Some(lines);
  }

  function ListLatex(mixed: string -> string, f: Obj): Option<string>
  {
    match Iter(OrEmpty(GetOr(f, "items", Null)))
    case None => None
    case Some(xs) =>
      match MapAll(xs, x => ItemLine(mixed, x))
      case None => None
      case Some(ls) => Some(Join("\n", ["\\begin{itemize}"] + ls + ["\\end{itemize}\n"]))
  }

  lemma {:induction false} JoinCons(a: string, xs: seq<string>)
    requires xs != []
    ensures Join("\n", [a] + xs) == a + "\n" + Join("\n", xs)
  {
    assert ([a] + xs)[1..] == xs;
  }

  /** A list is an itemize environment with one "\item" line per item, in
      order: the items' lines between the opening and the closing line. */
  lemma {:induction false} ListShapeLatex(mixed: string -> string, f: Obj, xs: seq<Value>)
    requires Get(f, "items") == Some(List(xs))
    requires MapAll(xs, x => ItemLine(mixed, x)).Some?
    ensures var ls := MapAll(xs, x => ItemLine(mixed, x)).value;
      ListLatex(mixed, f) == Some("\\begin{itemize}\n" + Join("\n", ls + ["\\end{itemize}\n"]))
    ensures |MapAll(xs, x => ItemLine(mixed, x)).value| == |xs|
  {
    var ls := MapAll(xs, x => ItemLine(mixed, x)).value;
    assert ["\\begin{itemize}"] + ls + ["\\end{itemize}\n"] == ["\\begin{itemize}"] + (ls + ["\\end{itemize}\n"]);
    JoinCons("\\begin{itemize}", ls + ["\\end{itemize}\n"]);
    assert "\\begin{itemize}\n" == "\\begin{itemize}" + "\n";
  }

  /** One block of a solution step: the balanced paragraph text, an
      equation environment, or nothing for other types; a block that is not
      a dict raises. */
  function BlockLinesL(mixed: string -> string, block: Value): Option<seq<string>>
  {
    if !block.Object? then None
    else
      var btype := Get(block.fields, "type");
      if btype == Some(Str("paragraph")) then
        match BalancedMixed(mixed, GetOr(block.fields, "text", Str("")))
        case None => None
        case Some(t) => Some([t])
      else if btype == Some(Str("equation")) then
        match BalanceOf(GetOr(block.fields, "latex", Str("")))
        case None => None
        case Some(e) => Some(["\\begin{equation}\n" + e + "\n\\end{equation}"])
      else Some([])
  }

  function BlocksLinesL(mixed: string -> string, blocks: seq<Value>): (r: Option<seq<string>>)
    ensures r.None? <==> exists i :: 0 <= i < |blocks| && BlockLinesL(mixed, blocks[i]).None?
    decreases |blocks|
  {
    if blocks == [] then Some([])
    else
      var init := blocks[..|blocks| - 1];
      assert forall i :: 0 <= i < |init| ==> init[i] == blocks[i];
      match BlocksLinesL(mixed, init)
      case None => None
      case Some(ls) =>
        match BlockLinesL(mixed, blocks[|blocks| - 1])
        case None => None
        case Some(t) => Some(ls + t)
  }

  function StepLinesL(mixed: string -> string, step: Value): Option<seq<string>>
  {
    match Iter(step)
    case None => None
    case Some(blocks) => BlocksLinesL(mixed, blocks)
  }

  function StepsLinesL(mixed: string -> string, steps: seq<Value>): (r: Option<seq<string>>)
    ensures r.None? <==> exists i :: 0 <= i < |steps| && StepLinesL(mixed, steps[i]).None?
    decreases |steps|
  {
    if steps == [] then Some([])
    else
      var init := steps[..|steps| - 1];
      assert forall i :: 0 <= i < |init| ==> init[i] == steps[i];
      match StepsLinesL(mixed, init)
      case None => None
      case Some(ls) =>
        match StepLinesL(mixed, steps[|steps| - 1])
        case None => None
        case Some(t) => Some(ls + t)
  }

  /** The nested loop over the steps and their blocks. */
  method RenderStepsL(mixed: string -> string, steps: seq<Value>) returns (r: Option<seq<string>>)
    ensures r == StepsLinesL(mixed, steps)
  {
    var lines: seq<string> := [];
    var i := 0;
    while i < |steps|
      invariant 0 <= i <= |steps|
      invariant StepsLinesL(mixed, steps[..i]) == Some(lines)
    {
      var blocks := Iter(steps[i]);
      if blocks.None? {
        assert StepLinesL(mixed, steps[i]).None?;
        return None;
      }
      var j := 0;
      var stepLines: seq<string> := [];
      while j < |blocks.value|
        invariant 0 <= j <= |blocks.value|
        invariant BlocksLinesL(mixed, blocks.value[..j]) == Some(stepLines)
      {
        var b := BlockLinesL(mixed, blocks.value[j]);
        if b.None? {
          assert BlocksLinesL(mixed, blocks.value).None?;
          assert StepLinesL(mixed, steps[i]).None?;
          return None;
        }
        stepLines := stepLines + b.value;
        j := j + 1;
        assert blocks.value[..j][..j - 1] == blocks.value[..j - 1];
      }
      assert blocks.value[..j] == blocks.value;
      lines := lines + stepLines;
      i := i + 1;
      assert steps[..i][..i - 1] == steps[..i - 1];
    }
    assert steps[..i] == steps;
    r := Some(lines);
  }

  /** The opening lines of an example problem. */
  function ExampleHeadL(title: string, statement: string): seq<string>
  {
    ["\\begin{exampleproblem}[" + title + "]", "\\textbf{Problem Statement:} " + statement, "", "\\begin{solution}"]
  }

  const ExampleTail: seq<string> := ["\\end{solution}", "\\end{exampleproblem}\n"]

  function ExampleLatex(mixed: string -> string, f: Obj): Option<string>
  {
    var title := EscapeLatexOf(GetOr(f, "title", Str("Example Problem")));
    var statement := BalancedMixed(mixed, GetOr(f, "problem_statement", Str("")));
    var steps := Iter(OrEmpty(GetOr(f, "solution_steps", Null)));
    if title.None? || statement.None? || steps.None? then None
    else match StepsLinesL(mixed, steps.value)
      case None => None
      case Some(body) =>
        Some(Join("\n", ExampleHeadL(BalanceBraces(title.value), DropProblemPrefix(statement.value)) + body + ExampleTail))
  }

  /** render_section_latex */
  function SectionLatex(mixed: string -> string, section: Value): Option<string>
  {
    if !Truthy(section) then Some("")
    else if !section.Object? then None
    else
      var f := section.fields;
      var stype := Get(f, "type");
      if stype == Some(Str("heading")) then HeadingLatex(mixed, f)
      else if stype == Some(Str("paragraph")) then ParagraphLatex(mixed, GetOr(f, "text", Str("")))
      else if stype == Some(Str("equation")) then EquationLatex(f)
      else if stype == Some(Str("example_problem")) then ExampleLatex(mixed, f)
      else if stype == Some(Str("list")) then ListLatex(mixed, f)
      else Some("")
  }

  /** render_section_latex, with its list and solution loops. */
  method RenderSectionL(mixed: string -> string, section: Value) returns (r: Option<string>)
    ensures r == SectionLatex(mixed, section)
  {
    if !Truthy(section) || !section.Object? {
      return SectionLatex(mixed, section);
    }
    var f := section.fields;
    var stype := Get(f, "type");
    if stype == Some(Str("list")) {
      var items := Iter(OrEmpty(GetOr(f, "items", Null)));
      if items.None? {
        return None;
      }
      var lines := RenderItems(mixed, items.value);
      if lines.None? {
        return None;
      }
      return Some(Join("\n", ["\\begin{itemize}"] + lines.value + ["\\end{itemize}\n"]));
    } else if stype == Some(Str("example_problem")) {
      var title := EscapeLatexOf(GetOr(f, "title", Str("Example Problem")));
      var statement := BalancedMixed(mixed, GetOr(f, "problem_statement", Str("")));
      var steps := Iter(OrEmpty(GetOr(f, "solution_steps", Null)));
      if title.None? || statement.None? || steps.None? {
        return None;
      }
      var body := RenderStepsL(mixed, steps.value);
      if body.None? {
        return None;
      }
      var head := ExampleHeadL(BalanceBraces(title.value), DropProblemPrefix(statement.value));
      return Some(Join("\n", head + body.value + ExampleTail));
    }
    r := SectionLatex(mixed, section);
  }

  /** An empty section and a section of unknown type render as nothing. */
  lemma {:induction false} EmptyOrUnknownL(mixed: string -> string, section: Value)
    requires !Truthy(section) ||
      (section.Object? && Get(section.fields, "type") !in
        {Some(Str("heading")), Some(Str("paragraph")), Some(Str("equation")),
         Some(Str("example_problem")), Some(Str("list"))})
    ensures SectionLatex(mixed, section) == Some("")
  {
  }

  /** Every escaped title character sits behind its backslash, so the
      example's optional argument cannot start a comment or a parameter. */
  lemma {:induction false} ExampleTitleEscaped(t: string)
    ensures EscapeLatexOf(Str(t)) == Some(EscapeLatex(t))
    ensures Escaped(EscapeLatexOf(Str(t)).value)
  {
    if t != "" {
      EscapeItemsChars(t);
      EscapeLatexEscaped(t);
    }
  }

  function CharsL(s: string): seq<Value>
  {
    seq(|s|, i requires 0 <= i < |s| => Str([s[i]]))
  }

  /** Iterating a string item by item escapes it like the string itself. */
  lemma {:induction false} EscapeItemsChars(s: string)
    ensures EscapeItemsL(CharsL(s)) == Some(EscapeChars(s))
    decreases |s|
  {
    if s != [] {
      assert CharsL(s)[1..] == CharsL(s[1..]);
      EscapeItemsChars(s[1..]);
    }
  }

  /** An equation environment always closes, around the balanced source. */
  lemma {:induction false} EquationBalanced(f: Obj, src: string)
    requires Get(f, "latex") == Some(Str(src))
    ensures EquationLatex(f) == Some("\\begin{equation}\n" + BalanceBraces(src) + "\n\\end{equation}\n")
    ensures Net(BalanceBraces(src)) == if Net(src) > 0 && EndsWith(src, "\\") then 1 else 0
  {
    BalanceNet(src);
  }

  // ---- Chapters ----

  /** The chapter opening: a part for a unit title, otherwise an unnumbered
      chapter and its contents entry, as two parts. */
  function TitlePartsL(titleText: string): seq<string>
  {
    if IsUnitTitle(titleText) then [PartLine(titleText)]
    else ["\\chapter*{" + titleText + "}\n", "\\addcontentsline{toc}{chapter}{" + titleText + "}\n"]
  }

  function PartLine(titleText: string): string
  {
    "\\part{" + titleText + "}\n"
  }

  /** render_page_latex: the title parts (or nothing for a unit past the
      fifth), then each section, joined by newlines. */
  function PageLatex(mixed: string -> string, chapter: Value): Option<string>
  {
    if !chapter.Object? then None
    else
      var title := GetOr(chapter.fields, "title", Null);
      var rendered := MixedOfL(mixed, title);
      if rendered.None? then None
      else if Truthy(title) && SkippedUnit(Strip(rendered.value)) then Some("")
      else
        var head := if Truthy(title) then TitlePartsL(Strip(rendered.value)) else [];
        match Iter(OrEmpty(GetOr(chapter.fields, "sections", Null)))
        case None => None
        case Some(secs) =>
          match MapAll(secs, s => SectionLatex(mixed, s))
          case None => None
          case Some(body) => Some(Join("\n", head + body))
  }

  method RenderPageL(mixed: string -> string, chapter: Value) returns (r: Option<string>)
    ensures r == PageLatex(mixed, chapter)
  {
    if !chapter.Object? {
      return None;
    }
    var title := GetOr(chapter.fields, "title", Null);
    var secs := Iter(OrEmpty(GetOr(chapter.fields, "sections", Null)));
    var parts: seq<string> := [];
    if Truthy(title) {
      var rendered := MixedOfL(mixed, title);
      if rendered.None? {
        return None;
      }
      var titleText := Strip(rendered.value);
      if SkippedUnit(titleText) {
        return Some("");
      }
      parts := TitlePartsL(titleText);
    }
    if secs.None? {
      return None;
    }
    var body := RenderSectionsL(mixed, secs.value);
    if body.None? {
      return None;
    }
    r := Some(Join("\n", parts + body.value));
  }

  /** The loop over a chapter's sections. */
  method RenderSectionsL(mixed: string -> string, secs: seq<Value>) returns (r: Option<seq<string>>)
    ensures r == MapAll(secs, s => SectionLatex(mixed, s))
  {
    var parts: seq<string> := [];
    var i := 0;
    while i < |secs|
      invariant 0 <= i <= |secs|
      invariant MapAll(secs[..i], s => SectionLatex(mixed, s)) == Some(parts)
    {
      var t := RenderSectionL(mixed, secs[i]);
      if t.None? {
        return None;
      }
      parts := parts + [t.value];
      i := i + 1;
      assert secs[..i][..i - 1] == secs[..i - 1];
    }
    assert secs[..i] == secs;
    r := Some(parts);
  }

  /** A unit title renders as itself when the mixed renderer leaves it
      alone, and has nothing to strip. */
  lemma {:induction false} UnitTitleStrip(n: string)
    requires n != [] && forall j :: 0 <= j < |n| ==> UnitChar(n[j])
    ensures Strip("UNIT " + n) == "UNIT " + n
  {
    var t := "UNIT " + n;
    assert t[|t| - 1] == n[|n| - 1];
    assert !IsSpace(t[0]) && !IsSpace(t[|t| - 1]);
    assert LStrip(t) == t;
  }

  /** A chapter titled "UNIT n" with n outside 1-5 and I-V renders as
      nothing at all, as in the Typst renderer. */
  lemma {:induction false} UnitPageSkippedL(mixed: string -> string, chapter: Value, n: string)
    requires n != [] && forall j :: 0 <= j < |n| ==> UnitChar(n[j])
    requires mixed("UNIT " + n) == "UNIT " + n
    requires chapter.Object? && Get(chapter.fields, "title") == Some(Str("UNIT " + n))
    requires n !in ValidUnits
    ensures PageLatex(mixed, chapter) == Some("")
  {
    var t := "UNIT " + n;
    UnitTitleStrip(n);
    UnitTitle(n);
    assert GetOr(chapter.fields, "title", Null) == Str(t);
    assert MixedOfL(mixed, Str(t)) == Some(t);
    PageSkipped(mixed, chapter, t);
  }

  /** A title that renders to a unit past the fifth empties the page. */
  lemma {:induction false} PageSkipped(mixed: string -> string, chapter: Value, r: string)
    requires chapter.Object? && Truthy(GetOr(chapter.fields, "title", Null))
    requires MixedOfL(mixed, GetOr(chapter.fields, "title", Null)) == Some(r) && SkippedUnit(Strip(r))
    ensures PageLatex(mixed, chapter) == Some("")
  {
  }

  /** A chapter titled "UNIT n" with n in 1-5 or I-V opens a part. */
  lemma {:induction false} UnitPagePart(mixed: string -> string, chapter: Value, n: string)
    requires n != [] && forall j :: 0 <= j < |n| ==> UnitChar(n[j])
    requires mixed("UNIT " + n) == "UNIT " + n
    requires chapter.Object? && Get(chapter.fields, "title") == Some(Str("UNIT " + n))
    requires n in ValidUnits && PageLatex(mixed, chapter).Some?
    ensures StartsWith(PageLatex(mixed, chapter).value, PartLine("UNIT " + n))
  {
    var t := "UNIT " + n;
    UnitTitleStrip(n);
    UnitTitle(n);
    assert TitlePartsL(t) == [PartLine(t)];
    var secs := Iter(OrEmpty(GetOr(chapter.fields, "sections", Null))).value;
    var body := MapAll(secs, s => SectionLatex(mixed, s)).value;
    assert PageLatex(mixed, chapter) == Some(Join("\n", [PartLine(t)] + body));
    JoinStartsL(PartLine(t), body);
  }

  lemma {:induction false} JoinStartsL(a: string, xs: seq<string>)
    ensures StartsWith(Join("\n", [a] + xs), a)
  {
    if xs != [] {
      JoinCons(a, xs);
      StartsWithAppend(a, "\n" + Join("\n", xs));
      assert a + "\n" + Join("\n", xs) == a + ("\n" + Join("\n", xs));
    } else {
      assert [a] + xs == [a];
    }
  }

  /** A chapter whose rendered title has no "UNIT" in it opens with an
      unnumbered chapter heading and its contents entry. */
  lemma {:induction false} ChapterTitle(mixed: string -> string, chapter: Value, t: string)
    requires chapter.Object? && Get(chapter.fields, "title") == Some(Str(t)) && t != ""
    requires !IsUnitTitle(Strip(mixed(t))) && PageLatex(mixed, chapter).Some?
    ensures StartsWith(PageLatex(mixed, chapter).value, "\\chapter*{" + Strip(mixed(t)) + "}\n")
  {
    var tt := Strip(mixed(t));
    var secs := Iter(OrEmpty(GetOr(chapter.fields, "sections", Null))).value;
    var body := MapAll(secs, s => SectionLatex(mixed, s)).value;
    var a := "\\chapter*{" + tt + "}\n";
    var b := "\\addcontentsline{toc}{chapter}{" + tt + "}\n";
    assert ([a, b] + body) == [a] + ([b] + body);
    JoinStartsL(a, [b] + body);
  }

  // ---- Structural repair of the generated LaTeX ----

  predicate OpensList(line: string)
  {
    Contains(line, "\\begin{itemize}") || Contains(line, "\\begin{enumerate}") || Contains(line, "\\begin{description}")
  }

  predicate ClosesList(line: string)
  {
    Contains(line, "\\end{itemize}") || Contains(line, "\\end{enumerate}") || Contains(line, "\\end{description}")
  }

  /** The list depth after a line: one deeper when it opens a list, then
      one shallower, but never below zero, when it closes one. */
  function DepthAfter(d: nat, line: string): nat
  {
    var deeper := if OpensList(line) then d + 1 else d;
    if ClosesList(line) then (if deeper - 1 > 0 then deeper - 1 else 0) else deeper
  }

  /** The list depth after all the lines. */
  function Depth(lines: seq<string>): nat
  {
    if lines == [] then 0 else DepthAfter(Depth(lines[..|lines| - 1]), lines[|lines| - 1])
  }

  /** A line at depth zero has its list items turned into bullets. */
  function ItemFix(d: nat, line: string): string
  {
    if d == 0 && Contains(line, Item) then ReplaceAll(line, Item, "\\textbullet{}") else line
  }

  /** The list-depth pass over the lines: each line fixed at the depth
      reached once it is read. */
  function ListPass(lines: seq<string>): (r: seq<string>)
    ensures |r| == |lines|
  {
    if lines == [] then []
    else ListPass(lines[..|lines| - 1]) + [ItemFix(Depth(lines), lines[|lines| - 1])]
  }

  /** The loop of the list-depth pass, with its `in_list` counter. */
  method ListDepthPass(lines: seq<string>) returns (cleaned: seq<string>)
    ensures cleaned == ListPass(lines)
  {
    var inList: nat := 0;
    cleaned := [];
    var i := 0;
    while i < |lines|
      invariant 0 <= i <= |lines|
      invariant inList == Depth(lines[..i])
      invariant cleaned == ListPass(lines[..i])
    {
      var line := lines[i];
      if OpensList(line) {
        inList := inList + 1;
      }
      if ClosesList(line) {
        inList := if inList - 1 > 0 then inList - 1 else 0;
      }
      if inList == 0 && Contains(line, Item) {
        line := ReplaceAll(line, Item, "\\textbullet{}");
      }
      cleaned := cleaned + [line];
      i := i + 1;
      assert lines[..i][..i - 1] == lines[..i - 1];
    }
    assert lines[..i] == lines;
  }

  /** Line i of the pass is line i of the input, fixed at the depth reached
      after it. */
  lemma {:induction false} ListPassAt(lines: seq<string>, i: nat)
    requires i < |lines|
    ensures ListPass(lines)[i] == ItemFix(Depth(lines[..i + 1]), lines[i])
    decreases |lines|
  {
    if i < |lines| - 1 {
      var init := lines[..|lines| - 1];
      ListPassAt(init, i);
      assert init[..i + 1] == lines[..i + 1];
    } else {
      assert lines[..i + 1] == lines;
    }
  }

  /** Without a list item anywhere, the pass changes nothing. */
  lemma {:induction false} ListPassNoItems(lines: seq<string>)
    requires forall i :: 0 <= i < |lines| ==> !Contains(lines[i], Item)
    ensures ListPass(lines) == lines
  {
    forall i | 0 <= i < |lines| ensures ListPass(lines)[i] == lines[i] {
      ListPassAt(lines, i);
    }
  }

  /** Without any list environment, every line is at depth zero: all its
      list items become bullets. */
  lemma {:induction false} NoListDepthZero(lines: seq<string>)
    requires forall i :: 0 <= i < |lines| ==> !OpensList(lines[i])
    ensures Depth(lines) == 0
    decreases |lines|
  {
    if lines != [] {
      NoListDepthZero(lines[..|lines| - 1]);
    }
  }

  lemma {:induction false} StrayItemsBulleted(lines: seq<string>, i: nat)
    requires forall j :: 0 <= j < |lines| ==> !OpensList(lines[j])
    requires i < |lines| && Contains(lines[i], Item)
    ensures ListPass(lines)[i] == ReplaceAll(lines[i], Item, "\\textbullet{}")
  {
    ListPassAt(lines, i);
    NoListDepthZero(lines[..i + 1]);
  }

  /** Lines without a closing list keep the depth from going down. */
  lemma {:induction false} DepthNoCloses(lines: seq<string>, k: nat)
    requires k <= |lines|
    requires forall j :: k <= j < |lines| ==> !ClosesList(lines[j])
    ensures Depth(lines) >= Depth(lines[..k])
    decreases |lines|
  {
    if k < |lines| {
      var init := lines[..|lines| - 1];
      assert init[..k] == lines[..k];
      DepthNoCloses(init, k);
    } else {
      assert lines[..k] == lines;
    }
  }

  /** A line inside a list that is opened earlier (or on the line itself)
      and not yet closed keeps its "\item". */
  lemma {:induction false} InsideListKept(lines: seq<string>, j: nat, i: nat)
    requires j <= i < |lines| && OpensList(lines[j])
    requires forall k :: j <= k <= i ==> !ClosesList(lines[k])
    ensures ListPass(lines)[i] == lines[i]
  {
    ListPassAt(lines, i);
    var upto := lines[..i + 1];
    assert upto[..j + 1][..j] == lines[..j];
    assert upto[..j + 1][j] == lines[j];
    assert Depth(upto[..j + 1]) >= 1;
    forall k | j + 1 <= k < |upto| ensures !ClosesList(upto[k]) {
      assert upto[k] == lines[k];
    }
    DepthNoCloses(upto, j + 1);
  }

  // The environment-stack pass.

  const BeginKw := "\\begin{"
  const EndKw := "\\end{"

  /** `kw(\w+)}` tried at index i: the environment name and where the match
      ends. */
  function EnvAt(line: string, kw: string, i: nat): Option<(string, nat)>
    requires i <= |line|
  {
    if !StartsWith(line[i..], kw) then None
    else
      var k := i + |kw|;
      var n := RunFrom(line, k, IsWordChar);
      if n > 0 && k + n < |line| && line[k + n] == '}' then Some((line[k..k + n], k + n + 1)) else None
  }

  /** The names of all the matches from index k on, left to right (finditer). */
  function EnvNames(line: string, kw: string, k: nat): seq<string>
    requires k <= |line|
    decreases |line| - k
  {
    if k == |line| then []
    else match EnvAt(line, kw, k)
      case Some(m) => [m.0] + (if m.1 <= |line| then EnvNames(line, kw, m.1) else [])
      case None => EnvNames(line, kw, k + 1)
  }

  datatype EnvState = EnvState(stack: seq<string>, line: string)

  /** One \end{e}: a matching top is popped; a different top is popped and
      the first \end{e} of the line renamed to it; an empty stack leaves
      everything as it is. */
  function CloseEnv(st: EnvState, e: string): EnvState
  {
    if st.stack == [] then st
    else
      var top := st.stack[|st.stack| - 1];
      var popped := st.stack[..|st.stack| - 1];
      if top == e then EnvState(popped, st.line)
      else EnvState(popped, ReplaceFirst(st.line, EndKw + e + "}", EndKw + top + "}"))
  }

  function CloseAll(st: EnvState, ends: seq<string>): EnvState
  {
    if ends == [] then st else CloseEnv(CloseAll(st, ends[..|ends| - 1]), ends[|ends| - 1])
  }

  /** One line: its \begin names pushed, then its \end names (found in the
      line as read) closed in order. */
  function EnvLine(stack: seq<string>, line: string): EnvState
  {
    CloseAll(EnvState(stack + EnvNames(line, BeginKw, 0), line), EnvNames(line, EndKw, 0))
  }

  /** The environment-stack pass: the repaired lines and the stack left. */
  function EnvPass(lines: seq<string>): (r: (seq<string>, seq<string>))
    ensures |r.0| == |lines|
  {
    if lines == [] then ([], [])
    else
      var prev := EnvPass(lines[..|lines| - 1]);
      var st := EnvLine(prev.1, lines[|lines| - 1]);
      (prev.0 + [st.line], st.stack)
  }

  /** The loops of the environment-stack pass. */
  method EnvStackPass(lines: seq<string>) returns (out: seq<string>)
    ensures out == EnvPass(lines).0
  {
    var stack: seq<string> := [];
    out := [];
    var i := 0;
    while i < |lines|
      invariant 0 <= i <= |lines|
      invariant (out, stack) == EnvPass(lines[..i])
    {
      var line := lines[i];
      var begins := EnvNames(line, BeginKw, 0);
      var j := 0;
      while j < |begins|
        invariant 0 <= j <= |begins|
        invariant stack == EnvPass(lines[..i]).1 + begins[..j]
      {
        stack := stack + [begins[j]];
        j := j + 1;
      }
      assert begins[..j] == begins;
      var ends := EnvNames(line, EndKw, 0);
      var st0 := EnvState(stack, line);
      var k := 0;
      while k < |ends|
        invariant 0 <= k <= |ends|
        invariant EnvState(stack, line) == CloseAll(st0, ends[..k])
      {
        var e := ends[k];
        if stack != [] && stack[|stack| - 1] == e {
          stack := stack[..|stack| - 1];
        } else if stack != [] {
          var actual := stack[|stack| - 1];
          stack := stack[..|stack| - 1];
          line := ReplaceFirst(line, EndKw + e + "}", EndKw + actual + "}");
        }
        k := k + 1;
        assert ends[..k][..k - 1] == ends[..k - 1];
      }
      assert ends[..k] == ends;
      out := out + [line];
      i := i + 1;
      assert lines[..i][..i - 1] == lines[..i - 1];
    }
    assert lines[..i] == lines;
  }

  /** Every \end pops one open environment while there is one. */
  lemma {:induction false} ClosePops(st: EnvState, ends: seq<string>)
    ensures |CloseAll(st, ends).stack| == if |st.stack| > |ends| then |st.stack| - |ends| else 0
    ensures CloseAll(st, ends).stack == st.stack[..|CloseAll(st, ends).stack|]
    decreases |ends|
  {
    if ends != [] {
      ClosePops(st, ends[..|ends| - 1]);
    }
  }

  /** An \end with nothing open leaves the line as it is. */
  lemma {:induction false} CloseEmpty(line: string, ends: seq<string>)
    ensures CloseAll(EnvState([], line), ends) == EnvState([], line)
    decreases |ends|
  {
    if ends != [] {
      CloseEmpty(line, ends[..|ends| - 1]);
    }
  }

  /** No match anywhere from k on: no names. */
  lemma {:induction false} EnvNamesNone(line: string, kw: string, k: nat)
    requires k <= |line|
    requires forall i :: k <= i < |line| ==> !StartsWith(line[i..], kw)
    ensures EnvNames(line, kw, k) == []
    decreases |line| - k
  {
    if k < |line| {
      EnvNamesNone(line, kw, k + 1);
    }
  }

  predicate IsEnvName(x: string)
  {
    x != [] && forall j :: 0 <= j < |x| ==> IsWordChar(x[j])
  }

  /** A line holding just `kw{x}` names x for that keyword ... */
  lemma {:induction false} EnvNamesOwn(kw: string, x: string)
    requires kw == BeginKw || kw == EndKw
    requires IsEnvName(x)
    ensures EnvNames(kw + x + "}", kw, 0) == [x]
  {
    var line := kw + x + "}";
    var k := |kw|;
    assert line[..k] == kw;
    assert line[k..k + |x|] == x;
    assert line[k + |x|] == '}';
    assert forall j :: k <= j < k + |x| ==> line[j] == x[j - k];
    RunFromUnique(line, k, IsWordChar, |x|);
    assert EnvAt(line, kw, 0) == Some((x, |line|));
  }

  /** ... and nothing for the other keyword. */
  lemma {:induction false} EnvNamesOther(kw: string, other: string, x: string)
    requires (kw, other) == (BeginKw, EndKw) || (kw, other) == (EndKw, BeginKw)
    requires IsEnvName(x)
    ensures EnvNames(kw + x + "}", other, 0) == []
  {
    var line := kw + x + "}";
    forall i | 0 <= i < |line| ensures !StartsWith(line[i..], other) {
      if i == 0 {
        assert line[1] == kw[1] && kw[1] != other[1];
        assert line[i..][1] == line[1];
      } else if i < |kw| {
        assert line[i] == kw[i] && kw[i] != '\\';
        assert line[i..][0] == line[i];
      } else if i < |kw| + |x| {
        assert line[i] == x[i - |kw|];
        assert line[i..][0] == line[i];
      } else {
        assert line[i..][0] == '}';
      }
    }
    EnvNamesNone(line, other, 0);
  }

  lemma {:induction false} EnvPassOne(l: string)
    ensures EnvPass([l]) == ([EnvLine([], l).line], EnvLine([], l).stack)
  {
    assert [l][..0] == [];
    assert EnvPass([]) == ([], []);
    assert [] + [EnvLine([], l).line] == [EnvLine([], l).line];
  }

  lemma {:induction false} EnvPassTwo(l1: string, l2: string)
    ensures var s1 := EnvLine([], l1); var s2 := EnvLine(s1.stack, l2);
      EnvPass([l1, l2]) == ([s1.line, s2.line], s2.stack)
  {
    var s1 := EnvLine([], l1);
    var s2 := EnvLine(s1.stack, l2);
    assert [l1, l2][..1] == [l1];
    EnvPassOne(l1);
    assert [s1.line] + [s2.line] == [s1.line, s2.line];
  }

  /** `\begin{x}` closed by `\end{y}` with y different from x: the pass
      renames the end to `\end{x}` and leaves nothing open. */
  lemma {:induction false} MismatchRenamed(x: string, y: string)
    requires IsEnvName(x) && IsEnvName(y) && x != y
    ensures EnvPass([BeginKw + x + "}", EndKw + y + "}"]) == ([BeginKw + x + "}", EndKw + x + "}"], [])
  {
    var l1 := BeginKw + x + "}";
    var l2 := EndKw + y + "}";
    EnvNamesOwn(BeginKw, x);
    EnvNamesOther(BeginKw, EndKw, x);
    EnvNamesOwn(EndKw, y);
    EnvNamesOther(EndKw, BeginKw, y);
    assert EnvLine([], l1) == EnvState([x], l1) by {
      assert [] + [x] == [x];
    }
    assert StartsWith(l2, EndKw + y + "}");
    assert ReplaceFirst(l2, EndKw + y + "}", EndKw + x + "}") == EndKw + x + "}" by {
      assert l2[|l2|..] == [];
    }
    assert EnvLine([x], l2) == EnvState([], EndKw + x + "}") by {
      assert [x] + [] == [x];
      assert [y][..0] == [];
      assert CloseAll(EnvState([x], l2), [y]) == CloseEnv(EnvState([x], l2), y);
    }
    EnvPassTwo(l1, l2);
  }

  /** With y open above z, a line `\end{y}\end{y}` pops y with its first end
      and closes z with its second; the renaming of that second end hits the
      first `\end{y}` of the line, which had matched, and the mismatched one
      stays. */
  lemma {:induction false} WrongEndRenamed(z: string, y: string)
    requires IsEnvName(z) && IsEnvName(y) && z != y
    ensures var l := EndKw + y + "}";
      EnvLine([z, y], l + l) == EnvState([], EndKw + z + "}" + l)
  {
    var l := EndKw + y + "}";
    var line := l + l;
    var st0 := EnvState([z, y], line);
    assert EnvLine([z, y], line) == CloseAll(st0, [y, y]) by {
      EndTwice(y);
      assert [z, y] + [] == [z, y];
    }
    assert CloseAll(st0, [y, y]) == CloseEnv(EnvState([z], line), y) by {
      CloseTwice(st0, y);
      assert CloseEnv(st0, y) == EnvState([z], line);
    }
    assert ReplaceFirst(line, l, EndKw + z + "}") == EndKw + z + "}" + l by {
      assert line[..|l|] == l;
      assert StartsWith(line, l);
      assert line[|l|..] == l;
    }
  }

  lemma {:induction false} CloseTwice(st: EnvState, e: string)
    ensures CloseAll(st, [e, e]) == CloseEnv(CloseEnv(st, e), e)
  {
    assert [e, e][..1] == [e] && [e][..0] == [];
    assert CloseAll(st, []) == st;
    assert CloseAll(st, [e]) == CloseEnv(st, e);
    assert CloseAll(st, [e, e]) == CloseEnv(CloseAll(st, [e]), e);
  }

  /** The ends and begins of `\end{y}\end{y}`. */
  lemma {:induction false} EndTwice(y: string)
    requires IsEnvName(y)
    ensures var l := EndKw + y + "}";
      EnvNames(l + l, EndKw, 0) == [y, y] && EnvNames(l + l, BeginKw, 0) == []
  {
    var l := EndKw + y + "}";
    var line := l + l;
    assert line[0..|l|] == l && line[|l|..|l| + |l|] == l;
    EndAt(y, line, 0);
    EndAt(y, line, |l|);
    assert EnvNames(line, EndKw, |line|) == [];
    assert EnvNames(line, EndKw, |l|) == [y];
    forall i | 0 <= i < |line| ensures !StartsWith(line[i..], BeginKw) {
      NoBeginAt(y, line, i);
    }
    EnvNamesNone(line, BeginKw, 0);
  }

  /** `\end{y}` at any offset of a line matches y. */
  lemma {:induction false} EndAt(y: string, line: string, off: nat)
    requires IsEnvName(y)
    requires var l := EndKw + y + "}"; off + |l| <= |line| && line[off..off + |l|] == l
    ensures EnvAt(line, EndKw, off) == Some((y, off + |EndKw| + |y| + 1))
  {
    var l := EndKw + y + "}";
    var k := |EndKw|;
    assert forall j :: 0 <= j < |l| ==> line[off + j] == l[j];
    assert line[off..][..k] == l[..k] == EndKw;
    assert forall j :: 0 <= j < |y| ==> l[k + j] == y[j];
    assert forall j :: off + k <= j < off + k + |y| ==> line[j] == y[j - off - k];
    assert l[k + |y|] == '}';
    assert line[off + k + |y|] == l[k + |y|];
    RunFromUnique(line, off + k, IsWordChar, |y|);
    assert line[off + k..off + k + |y|] == y;
  }

  /** No `\begin{` anywhere in `\end{y}\end{y}`. */
  lemma {:induction false} NoBeginAt(y: string, line: string, i: nat)
    requires IsEnvName(y)
    requires var l := EndKw + y + "}"; line == l + l && i < |line|
    ensures !StartsWith(line[i..], BeginKw)
  {
    var l := EndKw + y + "}";
    var k := |EndKw|;
    var j := if i < |l| then i else i - |l|;
    assert line[i] == l[j];
    if j == 0 {
      assert line[i + 1] == l[1] == 'e';
      assert line[i..][1] == line[i + 1];
    } else if j < k {
      assert l[j] == EndKw[j] && EndKw[j] != '\\';
      assert line[i..][0] == line[i];
    } else if j < k + |y| {
      assert l[j] == y[j - k];
      assert line[i..][0] == line[i];
    } else {
      assert line[i..][0] == '}';
    }
  }

  /** `\begin{x}` closed by `\end{x}` is kept and leaves nothing open. */
  lemma {:induction false} MatchKept(x: string)
    requires IsEnvName(x)
    ensures EnvPass([BeginKw + x + "}", EndKw + x + "}"]) == ([BeginKw + x + "}", EndKw + x + "}"], [])
  {
    var l1 := BeginKw + x + "}";
    var l2 := EndKw + x + "}";
    EnvNamesOwn(BeginKw, x);
    EnvNamesOther(BeginKw, EndKw, x);
    EnvNamesOwn(EndKw, x);
    EnvNamesOther(EndKw, BeginKw, x);
    assert EnvLine([], l1) == EnvState([x], l1) by {
      assert [] + [x] == [x];
    }
    assert EnvLine([x], l2) == EnvState([], l2) by {
      assert [x] + [] == [x];
      assert [x][..0] == [];
      assert CloseAll(EnvState([x], l2), [x]) == CloseEnv(EnvState([x], l2), x);
    }
    EnvPassTwo(l1, l2);
  }

  /** A stray `\end{y}` with nothing open is left as it is. */
  lemma {:induction false} StrayEndKept(y: string)
    requires IsEnvName(y)
    ensures EnvPass([EndKw + y + "}"]) == ([EndKw + y + "}"], [])
  {
    var l := EndKw + y + "}";
    EnvNamesOwn(EndKw, y);
    EnvNamesOther(EndKw, BeginKw, y);
    assert [] + EnvNames(l, BeginKw, 0) == [];
    CloseEmpty(l, [y]);
    EnvPassOne(l);
  }

  /** sanitize_for_zero_errors, its list-depth and environment-stack
      passes: split into lines, repair, join, twice. */
  function StructurePasses(latex: string): string
  {
    var listed := Join("\n", ListPass(Split(latex, "\n")));
    Join("\n", EnvPass(Split(listed, "\n")).0)
  }

  method SanitizeStructure(latex: string) returns (r: string)
    ensures r == StructurePasses(latex)
  {
    var cleaned := ListDepthPass(Split(latex, "\n"));
    var listed := Join("\n", cleaned);
    var out := EnvStackPass(Split(listed, "\n"));
    r := Join("\n", out);
  }

  /** A line with no "\end{" comes out of the environment pass as it
      went in. */
  lemma {:induction false} EnvPassKeeps(lines: seq<string>, i: nat)
    requires i < |lines| && !Contains(lines[i], EndKw)
    ensures EnvPass(lines).0[i] == lines[i]
    decreases |lines|
  {
    if i < |lines| - 1 {
      EnvPassKeeps(lines[..|lines| - 1], i);
    } else {
      var line := lines[i];
      forall j | 0 <= j < |line| ensures !StartsWith(line[j..], EndKw) {
        if StartsWith(line[j..], EndKw) {
          assert line[j..][..|EndKw|] == line[j..j + |EndKw|];
          ContainsAt(line, EndKw, j);
        }
      }
      EnvNamesNone(line, EndKw, 0);
    }
  }

  /** LaTeX with no "\item" and no "\end{" on any line passes both repairs
      unchanged. */
  lemma {:induction false} StructureUnchanged(latex: string)
    requires forall i :: 0 <= i < |Split(latex, "\n")| ==>
      !Contains(Split(latex, "\n")[i], Item) && !Contains(Split(latex, "\n")[i], EndKw)
    ensures StructurePasses(latex) == latex
  {
    var lines := Split(latex, "\n");
    ListPassNoItems(lines);
    JoinSplit(latex, "\n");
    var out := EnvPass(lines).0;
    forall i | 0 <= i < |lines| ensures out[i] == lines[i] {
      EnvPassKeeps(lines, i);
    }
    assert out == lines;
  }

  // ---- Empty tables ----

  const TabularOpen := "\\begin{tabular}"
  const TabularClose := "\\end{tabular}"

  predicate OccursAt(t: string, p: string, j: nat)
  {
    j + |p| <= |t| && t[j..j + |p|] == p
  }

  /** The first index at or after k where p occurs. */
  function FindText(t: string, p: string, k: nat): (r: Option<nat>)
    requires |p| > 0
    ensures r.Some? ==> k <= r.value && OccursAt(t, p, r.value)
    ensures r.Some? ==> forall j :: k <= j < r.value ==> !OccursAt(t, p, j)
    ensures r.None? ==> forall j :: k <= j ==> !OccursAt(t, p, j)
    decreases |t| - k
  {
    if k + |p| > |t| then None
    else if OccursAt(t, p, k) then Some(k)
    else FindText(t, p, k + 1)
  }

  /** `\\begin\{tabular\}[^}]*\}.*?\\end\{tabular\}` tried at index i: the
      column spec up to the first "}", then the body up to the first
      "\end{tabular}"; the result is where the match ends. */
  function TableAt(t: string, i: nat): (r: Option<nat>)
    requires i <= |t|
    ensures r.Some? ==> i + |TabularOpen| + 1 + |TabularClose| <= r.value <= |t|
    ensures r.Some? ==> t[i..i + |TabularOpen|] == TabularOpen && t[r.value - |TabularClose|..r.value] == TabularClose
  {
    if !StartsWith(t[i..], TabularOpen) then None
    else
      assert t[i..][..|TabularOpen|] == t[i..i + |TabularOpen|];
      match FindChar(t, '}', i + |TabularOpen|)
      case None => None
      case Some(j) =>
        match FindText(t, TabularClose, j + 1)
        case None => None
        case Some(c) => Some(c + |TabularClose|)
  }

  /** Where the next table starts, searching from k. */
  function NextTable(t: string, k: nat): (r: Option<nat>)
    requires k <= |t|
    ensures r.Some? ==> k <= r.value < |t| && TableAt(t, r.value).Some?
    ensures r.None? ==> forall j :: k <= j < |t| ==> TableAt(t, j).None?
    decreases |t| - k
  {
    if k >= |t| then None
    else if TableAt(t, k).Some? then Some(k)
    else NextTable(t, k + 1)
  }

  /** A document cut at its tables: the text between them and the tables. */
  datatype TexChunk = Text(text: string) | Tabular(body: string)

  function TableChunks(t: string, k: nat): seq<TexChunk>
    requires k <= |t|
    decreases |t| - k
  {
    match NextTable(t, k)
    case None => [Text(t[k..])]
    case Some(i) =>
      var e := TableAt(t, i).value;
      [Text(t[k..i]), Tabular(t[i..e])] + TableChunks(t, e)
  }

  function ChunkRaw(c: TexChunk): string
  {
    match c
    case Text(x) => x
    case Tabular(b) => b
  }

  function ChunksRaw(cs: seq<TexChunk>): string
  {
    if cs == [] then "" else ChunkRaw(cs[0]) + ChunksRaw(cs[1..])
  }

  /** A rule line: `\\(?:hline|toprule|midrule|bottomrule)\b` at index i. */
  predicate RuleWordAt(p: string, i: nat, w: string)
  {
    i < |p| && p[i] == '\\' && StartsWith(p[i + 1..], w) &&
    (i + 1 + |w| == |p| || !IsWordChar(p[i + 1 + |w|]))
  }

  predicate RuleAt(p: string, i: nat)
  {
    RuleWordAt(p, i, "hline") || RuleWordAt(p, i, "toprule") ||
    RuleWordAt(p, i, "midrule") || RuleWordAt(p, i, "bottomrule")
  }

  predicate HasRule(p: string, k: nat)
    decreases |p| - k
  {
    k < |p| && (RuleAt(p, k) || HasRule(p, k + 1))
  }

  /** A piece of a table between row breaks that counts as a row: not
      blank, and no rule command in it. */
  predicate IsRow(piece: string)
  {
    Strip(piece) != "" && !HasRule(piece, 0)
  }

  /** The stripped rows among the pieces. */
  function Rows(pieces: seq<string>): (r: seq<string>)
    ensures |r| <= |pieces|
  {
    if pieces == [] then []
    else (if IsRow(pieces[0]) then [Strip(pieces[0])] else []) + Rows(pieces[1..])
  }

  /** A table with a header and no data row: at most one row between its
      "\\" breaks. */
  predicate EmptyTable(body: string)
  {
    |Rows(Split(body, "\\\\"))| <= 1
  }

  function ChunkOut(c: TexChunk): string
  {
    match c
    case Text(x) => x
    case Tabular(b) => if EmptyTable(b) then "" else b
  }

  function ChunksOut(cs: seq<TexChunk>): string
  {
    if cs == [] then "" else ChunkOut(cs[0]) + ChunksOut(cs[1..])
  }

  /** strip_empty_tables: every empty table removed, everything else kept. */
  function StripEmptyTables(latex: string): string
  {
    ChunksOut(TableChunks(latex, 0))
  }

  lemma {:induction false} ChunksCons(a: TexChunk, rest: seq<TexChunk>)
    ensures ChunksRaw([a] + rest) == ChunkRaw(a) + ChunksRaw(rest)
  {
    assert ([a] + rest)[1..] == rest;
  }

  lemma {:induction false} ChunksCons2(a: TexChunk, b: TexChunk, rest: seq<TexChunk>)
    ensures ChunksRaw([a, b] + rest) == ChunkRaw(a) + ChunkRaw(b) + ChunksRaw(rest)
  {
    assert [a, b] + rest == [a] + ([b] + rest);
    ChunksCons(a, [b] + rest);
    ChunksCons(b, rest);
  }

  /** One step of the cut: the text up to the next table, the table, and
      the cut of the rest. */
  lemma {:induction false} TableChunksStep(t: string, k: nat) returns (i: nat, e: nat)
    requires k <= |t| && NextTable(t, k).Some?
    ensures k <= i && i + |TabularOpen| + 1 + |TabularClose| <= e <= |t|
    ensures TableChunks(t, k) == [Text(t[k..i]), Tabular(t[i..e])] + TableChunks(t, e)
    ensures t[i..i + |TabularOpen|] == TabularOpen && t[e - |TabularClose|..e] == TabularClose
  {
    i := NextTable(t, k).value;
    e := TableAt(t, i).value;
  }

  /** With no table left, the rest of the document is one text chunk. */
  lemma {:induction false} TableChunksLast(t: string, k: nat)
    requires k <= |t| && NextTable(t, k).None?
    ensures TableChunks(t, k) == [Text(t[k..])]
    ensures ChunksRaw(TableChunks(t, k)) == t[k..]
  {
    assert ChunksRaw([Text(t[k..])]) == t[k..] + ChunksRaw([]);
  }

  lemma {:induction false} ChunksRawStep(t: string, k: nat, i: nat, e: nat)
    requires k <= i <= e <= |t|
    requires TableChunks(t, k) == [Text(t[k..i]), Tabular(t[i..e])] + TableChunks(t, e)
    requires ChunksRaw(TableChunks(t, e)) == t[e..]
    ensures ChunksRaw(TableChunks(t, k)) == t[k..]
  {
    ChunksCons2(Text(t[k..i]), Tabular(t[i..e]), TableChunks(t, e));
    SliceThree(t, k, i, e);
  }

  /** Cutting loses nothing: the chunks spell out the document. */
  lemma {:induction false} TableChunksRebuild(t: string, k: nat)
    requires k <= |t|
    ensures ChunksRaw(TableChunks(t, k)) == t[k..]
    decreases |t| - k
  {
    if NextTable(t, k).None? {
      TableChunksLast(t, k);
    } else {
      var i, e := TableChunksStep(t, k);
      TableChunksRebuild(t, e);
      ChunksRawStep(t, k, i, e);
    }
  }

  /** Every table chunk starts with "\begin{tabular}" and ends with
      "\end{tabular}". */
  predicate TablesDelimited(cs: seq<TexChunk>)
  {
    forall j :: 0 <= j < |cs| && cs[j].Tabular? ==>
      StartsWith(cs[j].body, TabularOpen) && EndsWith(cs[j].body, TabularClose)
  }

  lemma {:induction false} TableChunksShape(t: string, k: nat)
    requires k <= |t|
    ensures TablesDelimited(TableChunks(t, k))
    decreases |t| - k
  {
    if NextTable(t, k).Some? {
      var i, e := TableChunksStep(t, k);
      TableChunksShape(t, e);
      DelimitedStep(t, i, e, TableChunks(t, e));
    } else {
      TableChunksLast(t, k);
    }
  }

  lemma {:induction false} DelimitedStep(t: string, i: nat, e: nat, rest: seq<TexChunk>)
    requires i + |TabularOpen| + |TabularClose| <= e <= |t|
    requires t[i..i + |TabularOpen|] == TabularOpen && t[e - |TabularClose|..e] == TabularClose
    requires TablesDelimited(rest)
    ensures forall x :: TablesDelimited([Text(x), Tabular(t[i..e])] + rest)
  {
    var b := t[i..e];
    assert b[..|TabularOpen|] == t[i..i + |TabularOpen|];
    assert b[|b| - |TabularClose|..] == t[e - |TabularClose|..e];
    forall x ensures TablesDelimited([Text(x), Tabular(b)] + rest) {
      var cs := [Text(x), Tabular(b)] + rest;
      forall j | 2 <= j < |cs| ensures cs[j] == rest[j - 2] {}
    }
  }

  /** The output is the input with the empty tables cut out: when no table
      is empty, nothing changes. */
  lemma {:induction false} ChunksOutKept(cs: seq<TexChunk>)
    requires forall j :: 0 <= j < |cs| && cs[j].Tabular? ==> !EmptyTable(cs[j].body)
    ensures ChunksOut(cs) == ChunksRaw(cs)
    decreases |cs|
  {
    if cs != [] {
      ChunksOutKept(cs[1..]);
    }
  }

  /** A document with no empty table comes back unchanged. */
  lemma {:induction false} NoEmptyTableUnchanged(latex: string)
    requires forall j :: 0 <= j < |TableChunks(latex, 0)| && TableChunks(latex, 0)[j].Tabular? ==>
      !EmptyTable(TableChunks(latex, 0)[j].body)
    ensures StripEmptyTables(latex) == latex
  {
    ChunksOutKept(TableChunks(latex, 0));
    TableChunksRebuild(latex, 0);
  }

  /** Removing only ever shortens: the output is no longer than the input. */
  lemma {:induction false} ChunksOutShorter(cs: seq<TexChunk>)
    ensures |ChunksOut(cs)| <= |ChunksRaw(cs)|
    decreases |cs|
  {
    if cs != [] {
      ChunksOutShorter(cs[1..]);
    }
  }
}
