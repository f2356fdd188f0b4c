// Python string behaviour used throughout the pipeline: whitespace as
// str.isspace() sees it, strip/split/join/replace/upper/lower, and the
// "non-whitespace content" view used to state that a rewrite loses nothing.
module TextUtil {

  datatype Option<T> = None | Some(value: T)

  /** str.isspace() for one character: ASCII whitespace, the C0 separators
      0x1C-0x1F, NEL, NBSP and the Unicode space separators. */
  predicate IsSpace(c: char)
  {
    c in SpaceChars
  }

  const SpaceChars: set<char> := {
    ' ', '\t', '\n', '\r', '\U{000B}', '\U{000C}', '\U{001C}', '\U{001D}', '\U{001E}', '\U{001F}',
    '\U{0085}', '\U{00A0}', '\U{1680}', '\U{2000}', '\U{2001}', '\U{2002}', '\U{2003}', '\U{2004}',
    '\U{2005}', '\U{2006}', '\U{2007}', '\U{2008}', '\U{2009}', '\U{200A}', '\U{2028}', '\U{2029}',
    '\U{202F}', '\U{205F}', '\U{3000}'}

  predicate IsAsciiLetter(c: char) { ('a' <= c <= 'z') || ('A' <= c <= 'Z') }
  predicate IsDigit(c: char) { '0' <= c <= '9' }
  /** Regex \w restricted to ASCII: letters, digits and underscore. */
  predicate IsWordChar(c: char) { IsAsciiLetter(c) || IsDigit(c) || c == '_' }

  /** A string is blank when it holds only whitespace (s.strip() == ""). */
  predicate IsBlank(s: string) { forall i :: 0 <= i < |s| ==> IsSpace(s[i]) }

  function LStrip(s: string): (r: string)
    ensures |r| <= |s|
  {
    if |s| > 0 && IsSpace(s[0]) then LStrip(s[1..]) else s
  }

  function RStrip(s: string): (r: string)
    ensures |r| <= |s|
  {
    if |s| > 0 && IsSpace(s[|s| - 1]) then RStrip(s[..|s| - 1]) else s
  }

  /** str.strip() with no argument. */
  function Strip(s: string): (r: string)
    ensures |r| <= |s|
  {
    RStrip(LStrip(s))
  }

  lemma {:induction false} LStripSuffix(s: string)
    ensures var r := LStrip(s); r == s[|s| - |r|..] && IsBlank(s[..|s| - |r|])
    ensures var r := LStrip(s); r != [] ==> !IsSpace(r[0])
    decreases |s|
  {
    if |s| > 0 && IsSpace(s[0]) {
      var t := LStrip(s[1..]);
      LStripSuffix(s[1..]);
      assert s[1..][..|s[1..]| - |t|] == s[1..|s| - |t|];
      assert forall i :: 1 <= i < |s| - |t| ==> s[i] == s[1..|s| - |t|][i - 1];
    }
  }

  lemma {:induction false} RStripPrefix(s: string)
    ensures var r := RStrip(s); r == s[..|r|] && IsBlank(s[|r|..])
    ensures var r := RStrip(s); r != [] ==> !IsSpace(r[|r| - 1])
    decreases |s|
  {
    if |s| > 0 && IsSpace(s[|s| - 1]) {
      var t := RStrip(s[..|s| - 1]);
      RStripPrefix(s[..|s| - 1]);
      assert s[..|s| - 1][|t|..] + [s[|s| - 1]] == s[|t|..];
      assert forall i :: |t| <= i < |s| - 1 ==> s[i] == s[..|s| - 1][|t|..][i - |t|];
    }
  }

  /** The stripped string is a contiguous piece of the input with only
      whitespace around it, and it neither starts nor ends with whitespace. */
  lemma StripIsInfix(s: string) returns (k: nat)
    ensures k + |Strip(s)| <= |s| && Strip(s) == s[k..k + |Strip(s)|]
    ensures IsBlank(s[..k]) && IsBlank(s[k + |Strip(s)|..])
    ensures Strip(s) != [] ==> !IsSpace(Strip(s)[0]) && !IsSpace(Strip(s)[|Strip(s)| - 1])
  {
    var l := LStrip(s);
    LStripSuffix(s);
    var r := RStrip(l);
    RStripPrefix(l);
    assert Strip(s) == r;
    k := |s| - |l|;
    var e := k + |r|;
    assert l == s[k..];
    assert r == s[k..e] by {
      assert l[..|r|] == s[k..e];
    }
    assert IsBlank(s[e..]) by {
      assert l[|r|..] == s[e..];
    }
    if r != [] {
      assert l[0] == r[0];
    }
  }

  lemma StripEdges(s: string)
    ensures Strip(s) != [] ==> !IsSpace(Strip(s)[0]) && !IsSpace(Strip(s)[|Strip(s)| - 1])
  {
    var _ := StripIsInfix(s);
  }

  lemma StripBlank(s: string)
    ensures Strip(s) == [] <==> IsBlank(s)
  {
    var k := StripIsInfix(s);
    if Strip(s) != [] {
      assert Strip(s)[0] == s[k];
    } else {
      forall i | 0 <= i < |s| ensures IsSpace(s[i]) {
        if i < k { assert s[..k][i] == s[i]; } else { assert s[k..][i - k] == s[i]; }
      }
    }
  }

  /** A string ending in whitespace loses at least that character to strip(). */
  lemma StripShortensTrailingSpace(s: string)
    requires |s| > 0 && IsSpace(s[|s| - 1])
    ensures |Strip(s)| < |s|
  {
    var k := StripIsInfix(s);
    if k + |Strip(s)| == |s| && Strip(s) != [] {
      assert Strip(s)[|Strip(s)| - 1] == s[|s| - 1];
    }
  }

  predicate StartsWith(s: string, p: string) { |p| <= |s| && s[..|p|] == p }
  predicate EndsWith(s: string, p: string) { |p| <= |s| && s[|s| - |p|..] == p }

  /** A suffix cut at two points. */
  lemma {:induction false} SliceThree(t: string, k: nat, i: nat, e: nat)
    requires k <= i <= e <= |t|
    ensures t[k..] == t[k..i] + t[i..e] + t[e..]
  {
    assert t[k..] == t[k..i] + t[i..];
    assert t[i..] == t[i..e] + t[e..];
  }

  /** Equal concatenations with equally long heads have equal parts. */
  lemma {:induction false} ConcatParts(x1: string, x2: string, y1: string, y2: string)
    requires x1 + x2 == y1 + y2 && |x1| == |y1|
    ensures x1 == y1 && x2 == y2
  {
    assert x1 == (x1 + x2)[..|x1|];
    assert y1 == (y1 + y2)[..|y1|];
    assert x2 == (x1 + x2)[|x1|..];
    assert y2 == (y1 + y2)[|y1|..];
  }

  lemma StartsWithAppend(a: string, b: string)
    ensures StartsWith(a + b, a)
  {
    assert (a + b)[..|a|] == a;
  }

  /** Python's `p in s` for strings. */
  predicate Contains(s: string, p: string)
    decreases |s|
  {
    StartsWith(s, p) || (|s| > 0 && Contains(s[1..], p))
  }

  lemma ContainsAt(s: string, p: string, i: nat)
    requires i + |p| <= |s| && s[i..i + |p|] == p
    ensures Contains(s, p)
    decreases i
  {
    if i > 0 {
      assert s[1..][i - 1..i - 1 + |p|] == s[i..i + |p|];
      ContainsAt(s[1..], p, i - 1);
    }
  }

  lemma ContainsWitness(s: string, p: string) returns (i: nat)
    requires Contains(s, p)
    ensures i + |p| <= |s| && s[i..i + |p|] == p
    decreases |s|
  {
    if StartsWith(s, p) { i := 0; }
    else {
      var j := ContainsWitness(s[1..], p);
      i := j + 1;
      assert s[1..][j..j + |p|] == s[i..i + |p|];
    }
  }

  /** A pattern whose first two characters never occur side by side in `s`
      does not occur in `s`. */
  lemma {:induction false} NoLeadingPair(s: string, p: string)
    requires |p| >= 2
    requires forall i :: 0 <= i < |s| - 1 ==> s[i] != p[0] || s[i + 1] != p[1]
    ensures !Contains(s, p)
    decreases |s|
  {
    if |p| <= |s| {
      assert s[0] != p[0] || s[1] != p[1];
      assert s[..|p|][0] == s[0] && s[..|p|][1] == s[1];
    }
    if |s| > 0 {
      forall i | 0 <= i < |s[1..]| - 1 ensures s[1..][i] != p[0] || s[1..][i + 1] != p[1] {
        assert s[1..][i] == s[i + 1] && s[1..][i + 1] == s[i + 2];
      }
      NoLeadingPair(s[1..], p);
    }
  }

  function Concat(xs: seq<string>): (r: string)
  {
    if xs == [] then "" else xs[0] + Concat(xs[1..])
  }

  lemma {:induction false} ConcatCons2(a: string, b: string, rest: seq<string>)
    ensures Concat([a, b] + rest) == a + b + Concat(rest)
  {
    var xs := [a, b] + rest;
    assert xs[1..] == [b] + rest && xs[1..][1..] == rest;
  }

  lemma ConcatSingle(x: string)
    ensures Concat([x]) == x
  {
    assert [x][1..] == [];
    assert x + "" == x;
  }

  lemma ConcatAppend(xs: seq<string>, ys: seq<string>)
    ensures Concat(xs + ys) == Concat(xs) + Concat(ys)
  {
    if xs == [] { assert xs + ys == ys; }
    else { assert (xs + ys)[1..] == xs[1..] + ys; ConcatAppend(xs[1..], ys); }
  }

  /** Building a list by applying f to each element in turn, where any
      application may raise (None) and the whole build then fails. */
  function MapAll<T, U>(xs: seq<T>, f: T -> Option<U>): (r: Option<seq<U>>)
    ensures r.None? <==> exists i :: 0 <= i < |xs| && f(xs[i]).None?
    ensures r.Some? ==> (|r.value| == |xs| && forall i :: 0 <= i < |xs| ==> f(xs[i]) == Some(r.value[i]))
    decreases |xs|
  {
    if xs == [] then Some([])
    else
      var init := xs[..|xs| - 1];
      assert forall i :: 0 <= i < |init| ==> init[i] == xs[i];
      match MapAll(init, f)
      case None => None
      case Some(ys) =>
        match f(xs[|xs| - 1])
        case None => None
        case Some(y) => Some(ys + [y])
  }

  /** sep.join(xs) */
  function Join(sep: string, xs: seq<string>): (r: string)
  {
    if xs == [] then "" else if |xs| == 1 then xs[0] else xs[0] + sep + Join(sep, xs[1..])
  }

  lemma JoinAppend(sep: string, xs: seq<string>, x: string)
    ensures Join(sep, xs + [x]) == if xs == [] then x else Join(sep, xs) + sep + x
  {
    if |xs| > 1 {
      assert (xs + [x])[1..] == xs[1..] + [x];
      JoinAppend(sep, xs[1..], x);
    } else if |xs| == 1 {
      assert (xs + [x])[1..] == [x];
    }
  }

  /** s.split(sep) for a non-empty separator: leftmost, non-overlapping. */
  function Split(s: string, sep: string): (r: seq<string>)
    requires |sep| > 0
    ensures |r| >= 1
    decreases |s|
  {
    if StartsWith(s, sep) then [""] + Split(s[|sep|..], sep)
    else if s == [] then [""]
    else
      var rest := Split(s[1..], sep);
      [[s[0]] + rest[0]] + rest[1..]
  }

  lemma {:induction false} JoinCons(sep: string, x: string, xs: seq<string>)
    requires xs != []
    ensures Join(sep, [x] + xs) == x + sep + Join(sep, xs)
  {
    assert ([x] + xs)[1..] == xs;
  }

  lemma {:induction false} SplitSep(s: string, sep: string)
    requires |sep| > 0 && StartsWith(s, sep)
    ensures Split(s, sep) == [""] + Split(s[|sep|..], sep)
  {
  }

  /** An empty first piece puts the separator in front of the join. */
  lemma {:induction false} JoinEmptyHead(sep: string, tail: seq<string>, t: string)
    requires tail != [] && Join(sep, tail) == t
    ensures Join(sep, [""] + tail) == sep + t
  {
    JoinCons(sep, "", tail);
  }

  /** The split step at a separator. */
  lemma {:induction false} JoinSplitSep(s: string, sep: string)
    requires |sep| > 0 && StartsWith(s, sep)
    requires Join(sep, Split(s[|sep|..], sep)) == s[|sep|..]
    ensures Join(sep, Split(s, sep)) == s
  {
    SplitSep(s, sep);
    JoinEmptyHead(sep, Split(s[|sep|..], sep), s[|sep|..]);
    assert s == s[..|sep|] + s[|sep|..];
  }

  lemma {:induction false} SplitChar(s: string, sep: string)
    requires |sep| > 0 && !StartsWith(s, sep) && s != []
    ensures var rest := Split(s[1..], sep); Split(s, sep) == [[s[0]] + rest[0]] + rest[1..]
  {
  }

  /** Putting a character in front of the first piece puts it in front of the join. */
  lemma {:induction false} JoinHead(sep: string, c: char, rest: seq<string>)
    requires rest != []
    ensures Join(sep, [[c] + rest[0]] + rest[1..]) == [c] + Join(sep, rest)
  {
    if |rest| > 1 {
      assert rest == [rest[0]] + rest[1..];
      JoinCons(sep, rest[0], rest[1..]);
      JoinCons(sep, [c] + rest[0], rest[1..]);
    }
  }

  /** The split step at an ordinary character. */
  lemma {:induction false} JoinSplitChar(s: string, sep: string)
    requires |sep| > 0 && !StartsWith(s, sep) && s != []
    requires Join(sep, Split(s[1..], sep)) == s[1..]
    ensures Join(sep, Split(s, sep)) == s
  {
    SplitChar(s, sep);
    JoinHead(sep, s[0], Split(s[1..], sep));
    assert s == [s[0]] + s[1..];
  }

  /** Joining the pieces of a split with the same separator restores the input. */
  lemma {:induction false} JoinSplit(s: string, sep: string)
    requires |sep| > 0
    ensures Join(sep, Split(s, sep)) == s
    decreases |s|
  {
    if StartsWith(s, sep) {
      JoinSplit(s[|sep|..], sep);
      JoinSplitSep(s, sep);
    } else if s != [] {
      JoinSplit(s[1..], sep);
      JoinSplitChar(s, sep);
    }
  }

  /** Characters of s that are not whitespace, in order. */
  function NonSpace(s: string): (r: string)
    ensures |r| <= |s|
  {
    if s == [] then "" else (if IsSpace(s[0]) then "" else [s[0]]) + NonSpace(s[1..])
  }

  lemma NonSpaceAppend(a: string, b: string)
    ensures NonSpace(a + b) == NonSpace(a) + NonSpace(b)
  {
    if a == [] { assert a + b == b; }
    else { assert (a + b)[1..] == a[1..] + b; NonSpaceAppend(a[1..], b); }
  }

  lemma NonSpaceBlank(s: string)
    ensures NonSpace(s) == "" <==> IsBlank(s)
  {
    if s != [] {
      NonSpaceBlank(s[1..]);
      if IsBlank(s[1..]) && IsSpace(s[0]) { assert forall i :: 1 <= i < |s| ==> s[i] == s[1..][i - 1]; }
      if IsBlank(s) { assert forall i :: 0 <= i < |s| - 1 ==> s[1..][i] == s[i + 1]; }
    }
  }

  /** strip() only removes whitespace. */
  lemma NonSpaceStrip(s: string)
    ensures NonSpace(Strip(s)) == NonSpace(s)
  {
    var k := StripIsInfix(s);
    var n := |Strip(s)|;
    var a, b, c := s[..k], s[k..k + n], s[k + n..];
    assert s == a + b + c;
    NonSpaceAppend(a + b, c);
    NonSpaceAppend(a, b);
    NonSpaceBlank(a);
    NonSpaceBlank(c);
  }

  lemma NonSpaceConcatAppend(xs: seq<string>, ys: seq<string>)
    ensures NonSpace(Concat(xs + ys)) == NonSpace(Concat(xs)) + NonSpace(Concat(ys))
  {
    ConcatAppend(xs, ys);
    NonSpaceAppend(Concat(xs), Concat(ys));
  }

  lemma NonSpaceConcatSnoc(xs: seq<string>, x: string)
    ensures NonSpace(Concat(xs + [x])) == NonSpace(Concat(xs)) + NonSpace(x)
  {
    NonSpaceConcatAppend(xs, [x]);
    ConcatSingle(x);
  }

  /** Joining with a whitespace separator keeps exactly the non-whitespace content. */
  lemma {:induction false} NonSpaceJoin(sep: string, xs: seq<string>)
    requires IsBlank(sep)
    ensures NonSpace(Join(sep, xs)) == NonSpace(Concat(xs))
  {
    if |xs| > 1 {
      NonSpaceJoin(sep, xs[1..]);
      NonSpaceAppend(xs[0] + sep, Join(sep, xs[1..]));
      NonSpaceAppend(xs[0], sep);
      NonSpaceBlank(sep);
      NonSpaceAppend(xs[0], Concat(xs[1..]));
    } else if |xs| == 1 {
      assert Concat(xs[1..]) == "";
      assert xs[0] + "" == xs[0];
    }
  }

  function UpperChar(c: char): char
  {
    if 'a' <= c <= 'z' then (c as int - 32) as char else c
  }

  function LowerChar(c: char): char
  {
    if 'A' <= c <= 'Z' then (c as int + 32) as char else c
  }

  /** str.upper() on ASCII letters. */
  function Upper(s: string): (r: string)
    ensures |r| == |s| && forall i :: 0 <= i < |s| ==> r[i] == UpperChar(s[i])
  {
    if s == [] then "" else [UpperChar(s[0])] + Upper(s[1..])
  }

  /** str.lower() on ASCII letters. */
  function Lower(s: string): (r: string)
    ensures |r| == |s| && forall i :: 0 <= i < |s| ==> r[i] == LowerChar(s[i])
  {
    if s == [] then "" else [LowerChar(s[0])] + Lower(s[1..])
  }

  lemma LowerIdentity(s: string)
    requires forall i :: 0 <= i < |s| ==> !('A' <= s[i] <= 'Z')
    ensures Lower(s) == s
  {
  }

  /** s.replace(pat, rep): leftmost, non-overlapping occurrences. */
  function ReplaceAll(s: string, pat: string, rep: string): (r: string)
    requires |pat| > 0
    decreases |s|
  {
    if |s| == 0 then ""
    else if StartsWith(s, pat) then rep + ReplaceAll(s[|pat|..], pat, rep)
    else [s[0]] + ReplaceAll(s[1..], pat, rep)
  }

  /** A replacement only copies characters of s or of rep. */
  lemma {:induction false} ReplaceAllChars(s: string, pat: string, rep: string, c: char)
    requires |pat| > 0
    requires c in ReplaceAll(s, pat, rep)
    ensures c in s || c in rep
    decreases |s|
  {
    if |s| == 0 {
    } else if StartsWith(s, pat) {
      if c !in rep { ReplaceAllChars(s[|pat|..], pat, rep, c); }
    } else {
      if c != s[0] { ReplaceAllChars(s[1..], pat, rep, c); }
    }
  }

  /** Text without any occurrence of the pattern comes back unchanged. */
  lemma {:induction false} ReplaceAllAbsent(s: string, pat: string, rep: string)
    requires |pat| > 0 && !Contains(s, pat)
    ensures ReplaceAll(s, pat, rep) == s
    decreases |s|
  {
    if |s| > 0 { ReplaceAllAbsent(s[1..], pat, rep); }
  }

  /** s.replace(pat, rep, 1): the first occurrence only. */
  function ReplaceFirst(s: string, pat: string, rep: string): (r: string)
    requires |pat| > 0
    decreases |s|
  {
    if |s| == 0 then ""
    else if StartsWith(s, pat) then rep + s[|pat|..]
    else [s[0]] + ReplaceFirst(s[1..], pat, rep)
  }

  function Repeat(c: char, n: int): (r: string)
    ensures |r| == if n < 0 then 0 else n
    ensures forall i :: 0 <= i < |r| ==> r[i] == c
    decreases n
  {
    if n <= 0 then "" else [c] + Repeat(c, n - 1)
  }

  /** Number of non-overlapping occurrences of p in s (str.count). */
  function Count(s: string, p: string): nat
    requires |p| > 0
    decreases |s|
  {
    if |s| == 0 then 0
    else if StartsWith(s, p) then 1 + Count(s[|p|..], p)
    else Count(s[1..], p)
  }

  function DigitChar(d: nat): char
    requires d < 10
  {
    ('0' as int + d) as char
  }

  /** str(n) for a natural number. */
  function NatToString(n: nat): (r: string)
    ensures |r| > 0 && forall i :: 0 <= i < |r| ==> IsDigit(r[i])
  {
    if n < 10 then [DigitChar(n)] else NatToString(n / 10) + [DigitChar(n % 10)]
  }

  /** str(i) for any integer. */
  function IntToString(i: int): (r: string)
    ensures |r| > 0
  {
    if i < 0 then "-" + NatToString(-i) else NatToString(i)
  }

  /** Python s[:n] for n >= 0. */
  function Prefix(s: string, n: nat): (r: string)
    ensures |r| == if n < |s| then n else |s|
    ensures r == s[..|r|]
  {
    if n < |s| then s[..n] else s
  }

  /** Python s[a:b], including negative bounds counted from the end. */
  function PySlice<T>(s: seq<T>, a: int, b: int): (r: seq<T>)
    ensures |r| <= |s|
  {
    var lo := if a < 0 then (if a + |s| < 0 then 0 else a + |s|) else (if a > |s| then |s| else a);
    var hi := if b < 0 then (if b + |s| < 0 then 0 else b + |s|) else (if b > |s| then |s| else b);
    if lo < hi then s[lo..hi] else []
  }
}
