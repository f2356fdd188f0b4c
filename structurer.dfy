// Phase 4: turning an expanded chunk into the chapter JSON the renderers
// consume.  The remote completion is an oracle `service(text, attempt)` and
// json.loads is an oracle `parse`; what is modelled is everything the node
// does around them: the input guards, the cleanup of the reply, the retry and
// error classification, and the rewrite of headings and paragraphs.
module Structurer {
  import opened TextUtil
  import opened JsonValue
  import Agents

  const MaxChunkSize: nat := 500000
  const TruncationMarker: string := "\n\n[... truncated ...]"
  const MaxRetries: nat := 3
  const BaseDelay: nat := 2

  const EmptyChunk: string := "Empty chunk"
  const MissingKeyMessage: string := "Missing GOOGLE_API_KEY"
  const EmptyResponse: string := "Empty response from LLM"
  const EmptyContent: string := "Empty content in response"
  const AuthFailed: string := "Authentication failed - check GOOGLE_API_KEY"
  const RateLimitExceeded: string := "Rate limit exceeded after 3 retries"

  /** What one completion attempt produced. */
  datatype Outcome =
    | Response(content: Option<string>)  // a response with choices; None = no content
    | NoResponse                         // an empty response or one without choices
    | Raised(message: string)            // an exception from the call, as str(e)

  /** json.loads: a value, or a JSONDecodeError rendered as text. */
  datatype Parse = Parsed(value: Value) | ParseError(message: string)

  /** What the node does after one attempt: sleep and go round again, or return. */
  datatype Step = Retry(delay: nat) | Finish(result: Value)

  /** The {"error": ...} dict the node returns on failure. */
  function ErrorObj(message: string): Value
  {
    Object([("error", Str(message))])
  }

  predicate HasKey(fs: Obj, key: string) { Get(fs, key).Some? }

  /** LLM_PROVIDER=ollama selects the local model; otherwise DEFAULT_MODEL,
      read with a default, so an empty value is kept. */
  function ModelFor(env: Agents.Env): string
  {
    if Agents.ProviderName(env) == "ollama" then Agents.OllamaModel
    else if env.defaultModel.Some? then env.defaultModel.value
    else Agents.DefaultFallbackModel
  }

  // ---- Input guard ----

  /** Chunks over 500000 characters keep their first 500000 and get a marker. */
  function Truncate(chunk: string): (r: string)
    ensures |r| <= MaxChunkSize + |TruncationMarker|
    ensures |chunk| <= MaxChunkSize ==> r == chunk
    ensures |chunk| > MaxChunkSize ==>
      |r| == MaxChunkSize + |TruncationMarker| && r[..MaxChunkSize] == chunk[..MaxChunkSize] && r[MaxChunkSize..] == TruncationMarker
  {
    if |chunk| > MaxChunkSize then chunk[..MaxChunkSize] + TruncationMarker else chunk
  }

  // ---- Reply cleanup ----

  lemma StripStrip(s: string)
    ensures Strip(Strip(s)) == Strip(s)
  {
    var t := Strip(s);
    StripEdges(s);
    if t != [] {
      assert LStrip(t) == t;
      assert RStrip(t) == t;
    }
  }

  /** Strip, drop a leading "```json" and then a leading "```", drop a
      trailing "```", strip again. */
  function StripFences(content: string): (r: string)
    ensures Strip(r) == r
  {
    var c := Strip(content);
    var c1 := if StartsWith(c, "```json") then c[7..] else c;
    var c2 := if StartsWith(c1, "```") then c1[3..] else c1;
    var c3 := if EndsWith(c2, "```") then c2[..|c2| - 3] else c2;
    StripStrip(c3);
    Strip(c3)
  }

  lemma StripUnchanged(s: string)
    requires s != [] && !IsSpace(s[0]) && !IsSpace(s[|s| - 1])
    ensures Strip(s) == s
  {
    assert LStrip(s) == s;
  }

  /** A reply fenced as a json code block gives back its body, stripped. */
  lemma {:induction false} JsonFenceRoundTrip(body: string)
    requires body == [] || body[0] != '`'
    ensures StripFences("```json" + body + "```") == Strip(body)
  {
    var s := "```json" + body + "```";
    StripUnchanged(s);
    assert StartsWith(s, "```json");
    var c1 := s[7..];
    assert c1 == body + "```";
    if body == [] {
      assert StartsWith(c1, "```");
      assert c1[3..] == [];
    } else {
      assert !StartsWith(c1, "```") by { assert c1[0] == body[0]; }
      assert EndsWith(c1, "```");
      assert c1[..|c1| - 3] == body;
    }
  }

  /** A reply in a bare code fence gives back its body, stripped, unless the
      body itself begins with "json". */
  lemma {:induction false} PlainFenceRoundTrip(body: string)
    requires !StartsWith(body, "json")
    ensures StripFences("```" + body + "```") == Strip(body)
  {
    var s := "```" + body + "```";
    assert Strip(s) == s by {
      StripUnchanged(s);
    }
    assert !StartsWith(s, "```json") by {
      if |body| >= 4 { assert s[3..7] == body[..4]; }
      else { assert s[3 + |body|] == '`'; }
    }
    assert StartsWith(s, "```");
    var c2 := s[3..];
    assert c2 == body + "```";
    assert EndsWith(c2, "```");
    assert c2[..|c2| - 3] == body;
  }

  /** An unfenced reply only loses its surrounding whitespace. */
  lemma UnfencedReply(content: string)
    requires !StartsWith(Strip(content), "```") && !EndsWith(Strip(content), "```")
    ensures StripFences(content) == Strip(content)
  {
    var c := Strip(content);
    assert !StartsWith(c, "```json") by {
      if |c| >= 7 { assert c[..7][..3] == c[..3]; }
    }
    StripStrip(content);
  }

  /** The characters after which a backslash is already a valid JSON escape. */
  predicate Protected(c: char) { c == '\\' || c == '"' || c == '/' }

  /** re.sub(r'(?<!\\)\\(?![\\"/])', r"\\\\", s): a backslash with no
      backslash before it in the input and none of \ " / after it is doubled.
      `after` says whether the input character before s was a backslash. */
  function Escape(s: string, after: bool): (r: string)
    ensures s != [] ==> r != [] && r[0] == s[0]
    ensures |r| >= |s|
    decreases |s|
  {
    if s == [] then ""
    else if s[0] == '\\' && !after && (|s| == 1 || !Protected(s[1])) then "\\\\" + Escape(s[1..], true)
    else [s[0]] + Escape(s[1..], s[0] == '\\')
  }

  function FixBackslashes(s: string): string
  {
    Escape(s, false)
  }

  /** Text without backslashes is left alone. */
  lemma {:induction false} EscapeNoBackslash(s: string, after: bool)
    requires forall i :: 0 <= i < |s| ==> s[i] != '\\'
    ensures Escape(s, after) == s
    decreases |s|
  {
    if s != [] {
      EscapeNoBackslash(s[1..], false);
    }
  }

  /** The rewrite leaves no backslash for a second pass to double. */
  lemma {:induction false} EscapeIdempotent(s: string, after: bool)
    ensures Escape(Escape(s, after), after) == Escape(s, after)
    decreases |s|
  {
    if s != [] {
      if s[0] == '\\' && !after && (|s| == 1 || !Protected(s[1])) {
        var u := Escape(s[1..], true);
        var t := "\\\\" + u;
        assert t[1..] == "\\" + u;
        assert ("\\" + u)[1..] == u;
        EscapeIdempotent(s[1..], true);
        assert Escape(t[1..], true) == "\\" + u;
        assert Escape(t, after) == [t[0]] + Escape(t[1..], true);
      } else {
        var u := Escape(s[1..], s[0] == '\\');
        var t := [s[0]] + u;
        assert t[1..] == u;
        EscapeIdempotent(s[1..], s[0] == '\\');
        if s[0] == '\\' && !after {
          assert |s| > 1 && Protected(s[1]);
          assert t[1] == s[1];
        }
        assert Escape(t, after) == [t[0]] + Escape(u, s[0] == '\\');
      }
    }
  }

  // ---- clean_json_node ----

  predicate IsUpperAlnum(c: char) { ('A' <= c <= 'Z') || ('0' <= c <= '9') }

  /** Length of the leading run of [A-Z0-9]. */
  function RunLen(s: string): (n: nat)
    ensures n <= |s|
    decreases |s|
  {
    if s != [] && IsUpperAlnum(s[0]) then 1 + RunLen(s[1..]) else 0
  }

  /** The run is all [A-Z0-9] and stops at the first other character. */
  lemma {:induction false} RunLenFacts(s: string)
    ensures forall i :: 0 <= i < RunLen(s) ==> IsUpperAlnum(s[i])
    ensures RunLen(s) < |s| ==> !IsUpperAlnum(s[RunLen(s)])
    decreases |s|
  {
    if s != [] && IsUpperAlnum(s[0]) {
      RunLenFacts(s[1..]);
      assert forall i :: 1 <= i < RunLen(s) ==> s[i] == s[1..][i - 1];
    }
  }

  /** s begins with one numbering group `[A-Z0-9]+\.` */
  predicate HasGroup(s: string)
  {
    0 < RunLen(s) < |s| && s[RunLen(s)] == '.'
  }

  /** End of the match of `^([A-Z0-9]+\.)+`: every group is consumed, so
      what follows starts no further group. */
  function NumberingEnd(s: string): (k: nat)
    ensures k <= |s|
    ensures k > 0 <==> HasGroup(s)
    ensures !HasGroup(s[k..])
    decreases |s|
  {
    if HasGroup(s) then
      var n := RunLen(s) + 1;
      var k' := NumberingEnd(s[n..]);
      assert s[n + k'..] == s[n..][k'..];
      n + k'
    else 0
  }

  /** What is removed is made of [A-Z0-9] and dots and ends with a dot. */
  lemma {:induction false} NumberingPrefix(s: string)
    ensures var k := NumberingEnd(s);
      (forall i :: 0 <= i < k ==> IsUpperAlnum(s[i]) || s[i] == '.') && (k > 0 ==> s[k - 1] == '.')
    decreases |s|
  {
    if HasGroup(s) {
      var n := RunLen(s) + 1;
      var k' := NumberingEnd(s[n..]);
      NumberingPrefix(s[n..]);
      RunLenFacts(s);
      assert forall i :: n <= i < n + k' ==> s[i] == s[n..][i - n];
    }
  }

  /** A heading's text with its leading numbering ("1.", "3.2.", "A.")
      removed, then stripped (the pattern's trailing \s* is subsumed by the
      strip). */
  function CleanHeading(text: string): (r: string)
    ensures Strip(r) == r
    ensures !HasGroup(text) ==> r == Strip(text)
  {
    StripStrip(text[NumberingEnd(text)..]);
    Strip(text[NumberingEnd(text)..])
  }

  lemma {:induction false} RunLenUnique(s: string, n: nat)
    requires n <= |s| && (forall i :: 0 <= i < n ==> IsUpperAlnum(s[i])) && (n < |s| ==> !IsUpperAlnum(s[n]))
    ensures RunLen(s) == n
    decreases n
  {
    if n > 0 {
      assert forall i :: 0 <= i < n - 1 ==> s[1..][i] == s[i + 1];
      RunLenUnique(s[1..], n - 1);
    }
  }

  /** Each leading group is dropped: "3.2. Flow" cleans like "2. Flow", which
      cleans like "Flow". */
  lemma {:induction false} DropOneGroup(group: string, rest: string)
    requires group != [] && forall i :: 0 <= i < |group| ==> IsUpperAlnum(group[i])
    ensures CleanHeading(group + "." + rest) == CleanHeading(rest)
  {
    GroupEnd(group, rest);
  }

  /** The match over `group.rest` is the group, its dot and the match over rest. */
  lemma {:induction false} GroupEnd(group: string, rest: string)
    requires group != [] && forall i :: 0 <= i < |group| ==> IsUpperAlnum(group[i])
    ensures var s := group + "." + rest;
      s[NumberingEnd(s)..] == rest[NumberingEnd(rest)..]
  {
    var s := group + "." + rest;
    var g := |group|;
    assert s[..g] == group;
    assert s[g] == '.';
    assert s[g + 1..] == rest;
    GroupAt(s, g);
    var k := NumberingEnd(rest);
    assert s[g + 1 + k..] == rest[k..];
  }

  /** A leading group of length g is consumed with its dot. */
  lemma {:induction false} GroupAt(s: string, g: nat)
    requires 0 < g < |s| && s[g] == '.' && forall i :: 0 <= i < g ==> IsUpperAlnum(s[i])
    ensures NumberingEnd(s) == g + 1 + NumberingEnd(s[g + 1..])
  {
    RunLenUnique(s, g);
  }

  /** Spacing that separates words from inline math. */
  predicate LetterDollar(a: char, b: char) { IsAsciiLetter(a) && b == '$' }
  predicate DollarLetter(a: char, b: char) { a == '$' && IsAsciiLetter(b) }

  /** No two neighbouring characters form a pair `bad` rejects. */
  predicate NoPair(t: string, bad: (char, char) -> bool)
  {
    forall i :: 0 <= i < |t| - 1 ==> !bad(t[i], t[i + 1])
  }

  lemma NoPairCons(c: char, t: string, bad: (char, char) -> bool)
    ensures NoPair([c] + t, bad) <==> NoPair(t, bad) && (t == [] || !bad(c, t[0]))
  {
    if NoPair(t, bad) && (t == [] || !bad(c, t[0])) {
      NoPairConsJoin(c, t, bad);
    }
    if NoPair([c] + t, bad) {
      NoPairConsSplit(c, t, bad);
    }
  }

  lemma NoPairConsJoin(c: char, t: string, bad: (char, char) -> bool)
    requires NoPair(t, bad) && (t == [] || !bad(c, t[0]))
    ensures NoPair([c] + t, bad)
  {
    var s := [c] + t;
    forall i | 0 <= i < |s| - 1 ensures !bad(s[i], s[i + 1]) {
      if i > 0 { assert s[i] == t[i - 1] && s[i + 1] == t[i]; }
    }
  }

  lemma NoPairConsSplit(c: char, t: string, bad: (char, char) -> bool)
    requires NoPair([c] + t, bad)
    ensures NoPair(t, bad) && (t == [] || !bad(c, t[0]))
  {
    var s := [c] + t;
    forall i | 0 <= i < |t| - 1 ensures !bad(t[i], t[i + 1]) {
      var j := i + 1;
      assert !bad(s[j], s[j + 1]);
      assert s[j] == t[i] && s[j + 1] == t[i + 1];
    }
    if t != [] {
      assert !bad(s[0], s[0 + 1]);
      assert s[0] == c && s[1] == t[0];
    }
  }

  /** re.sub(r"([a-zA-Z])\$", r"\1 $", s) */
  function SpaceBefore(s: string): (r: string)
    ensures s != [] ==> r != [] && r[0] == s[0]
    decreases |s|
  {
    if s == [] then ""
    else if |s| >= 2 && LetterDollar(s[0], s[1]) then [s[0], ' '] + SpaceBefore(s[1..])
    else [s[0]] + SpaceBefore(s[1..])
  }

  /** re.sub(r"\$([a-zA-Z])", r"$ \1", s) */
  function SpaceAfter(s: string): (r: string)
    ensures s != [] ==> r != [] && r[0] == s[0]
    decreases |s|
  {
    if s == [] then ""
    else if |s| >= 2 && DollarLetter(s[0], s[1]) then ['$', ' '] + SpaceAfter(s[1..])
    else [s[0]] + SpaceAfter(s[1..])
  }

  /** A paragraph's text with a space put between inline math and an
      adjacent letter on either side. */
  function SpaceDollars(text: string): string
  {
    SpaceAfter(SpaceBefore(text))
  }

  lemma {:induction false} SpaceBeforeClears(s: string)
    ensures NoPair(SpaceBefore(s), LetterDollar)
    decreases |s|
  {
    if s != [] {
      var u := SpaceBefore(s[1..]);
      SpaceBeforeClears(s[1..]);
      if |s| >= 2 && LetterDollar(s[0], s[1]) {
        NoPairCons(' ', u, LetterDollar);
        NoPairCons(s[0], [' '] + u, LetterDollar);
        assert [s[0], ' '] + u == [s[0]] + ([' '] + u);
      } else {
        NoPairCons(s[0], u, LetterDollar);
      }
    }
  }

  lemma {:induction false} SpaceAfterClears(s: string)
    ensures NoPair(SpaceAfter(s), DollarLetter)
    decreases |s|
  {
    if s != [] {
      var u := SpaceAfter(s[1..]);
      SpaceAfterClears(s[1..]);
      if |s| >= 2 && DollarLetter(s[0], s[1]) {
        NoPairCons(' ', u, DollarLetter);
        NoPairCons('$', [' '] + u, DollarLetter);
        assert ['$', ' '] + u == ['$'] + ([' '] + u);
      } else {
        NoPairCons(s[0], u, DollarLetter);
      }
    }
  }

  /** The second rewrite adds no letter-dollar pair the first one removed. */
  lemma {:induction false} SpaceAfterKeeps(s: string)
    requires NoPair(s, LetterDollar)
    ensures NoPair(SpaceAfter(s), LetterDollar)
    decreases |s|
  {
    if s != [] {
      var u := SpaceAfter(s[1..]);
      NoPairCons(s[0], s[1..], LetterDollar);
      assert [s[0]] + s[1..] == s;
      SpaceAfterKeeps(s[1..]);
      if |s| >= 2 && DollarLetter(s[0], s[1]) {
        NoPairCons(' ', u, LetterDollar);
        NoPairCons('$', [' '] + u, LetterDollar);
        assert ['$', ' '] + u == ['$'] + ([' '] + u);
      } else {
        NoPairCons(s[0], u, LetterDollar);
      }
    }
  }

  lemma {:induction false} SpaceBeforeFixed(s: string)
    requires NoPair(s, LetterDollar)
    ensures SpaceBefore(s) == s
    decreases |s|
  {
    if s != [] {
      NoPairCons(s[0], s[1..], LetterDollar);
      assert [s[0]] + s[1..] == s;
      SpaceBeforeFixed(s[1..]);
    }
  }

  lemma {:induction false} SpaceAfterFixed(s: string)
    requires NoPair(s, DollarLetter)
    ensures SpaceAfter(s) == s
    decreases |s|
  {
    if s != [] {
      NoPairCons(s[0], s[1..], DollarLetter);
      assert [s[0]] + s[1..] == s;
      SpaceAfterFixed(s[1..]);
    }
  }

  /** After the rewrite no letter touches a dollar sign, and only spaces
      were added; a paragraph already spaced is left as it is. */
  lemma SpaceDollarsSpec(s: string)
    ensures NoPair(SpaceDollars(s), LetterDollar) && NoPair(SpaceDollars(s), DollarLetter)
    ensures NonSpace(SpaceDollars(s)) == NonSpace(s)
    ensures SpaceDollars(s) == s <==> NoPair(s, LetterDollar) && NoPair(s, DollarLetter)
  {
    SpaceBeforeClears(s);
    SpaceAfterKeeps(SpaceBefore(s));
    SpaceAfterClears(SpaceBefore(s));
    SpaceBeforeNonSpace(s);
    SpaceAfterNonSpace(SpaceBefore(s));
    if NoPair(s, LetterDollar) && NoPair(s, DollarLetter) {
      SpaceBeforeFixed(s);
      SpaceAfterFixed(s);
    }
  }

  /** Cleaning a paragraph twice is cleaning it once. */
  lemma SpaceDollarsIdempotent(s: string)
    ensures SpaceDollars(SpaceDollars(s)) == SpaceDollars(s)
  {
    SpaceDollarsSpec(s);
    SpaceDollarsSpec(SpaceDollars(s));
  }

  lemma {:induction false} SpaceBeforeNonSpace(s: string)
    ensures NonSpace(SpaceBefore(s)) == NonSpace(s)
    decreases |s|
  {
    if s != [] {
      var u := SpaceBefore(s[1..]);
      SpaceBeforeNonSpace(s[1..]);
      NonSpaceAppend([s[0]], s[1..]);
      assert [s[0]] + s[1..] == s;
      if |s| >= 2 && LetterDollar(s[0], s[1]) {
        NonSpaceAppend([s[0], ' '], u);
        NonSpaceAppend([s[0]], [' ']);
        assert [s[0]] + [' '] == [s[0], ' '];
      } else {
        NonSpaceAppend([s[0]], u);
      }
    }
  }

  lemma {:induction false} SpaceAfterNonSpace(s: string)
    ensures NonSpace(SpaceAfter(s)) == NonSpace(s)
    decreases |s|
  {
    if s != [] {
      var u := SpaceAfter(s[1..]);
      SpaceAfterNonSpace(s[1..]);
      NonSpaceAppend([s[0]], s[1..]);
      assert [s[0]] + s[1..] == s;
      if |s| >= 2 && DollarLetter(s[0], s[1]) {
        NonSpaceAppend(['$', ' '], u);
        NonSpaceAppend(['$'], [' ']);
        assert ['$'] + [' '] == ['$', ' '];
      } else {
        NonSpaceAppend([s[0]], u);
      }
    }
  }

  /** The text update clean_json_node makes on one dict: headings lose their
      numbering, paragraphs get math spacing, both only when the text is
      truthy.  Text that str() renders here is a string, number or boolean. */
  function Retext(fs: Obj): Obj
  {
    var ty := Get(fs, "type");
    var tx := Get(fs, "text");
    if tx.Some? && Truthy(tx.value) && PyStr(tx.value).Some? then
      if ty == Some(Str("heading")) then Set(fs, "text", Str(CleanHeading(PyStr(tx.value).value)))
      else if ty == Some(Str("paragraph")) then Set(fs, "text", Str(SpaceDollars(PyStr(tx.value).value)))
      else fs
    else fs
  }

  predicate SameKeys(a: Obj, b: Obj)
  {
    |a| == |b| && forall i :: 0 <= i < |a| ==> a[i].0 == b[i].0
  }

  /** Assigning to a key the dict already has keeps its keys in place. */
  lemma {:induction false} SetExisting(o: Obj, key: string, v: Value)
    requires HasKey(o, key)
    ensures SameKeys(Set(o, key, v), o)
    decreases |o|
  {
    if o[0].0 != key {
      SetExisting(o[1..], key, v);
      var r := Set(o, key, v);
      assert r == [o[0]] + Set(o[1..], key, v);
      assert forall i :: 1 <= i < |o| ==> r[i] == Set(o[1..], key, v)[i - 1] && o[i] == o[1..][i - 1];
    }
  }

  lemma RetextKeys(fs: Obj)
    ensures SameKeys(Retext(fs), fs)
  {
    var ty := Get(fs, "type");
    var tx := Get(fs, "text");
    if HasKey(fs, "text") && tx.Some? && Truthy(tx.value) && PyStr(tx.value).Some? {
      var t := PyStr(tx.value).value;
      if ty == Some(Str("heading")) {
        SetExisting(fs, "text", Str(CleanHeading(t)));
      } else if ty == Some(Str("paragraph")) {
        SetExisting(fs, "text", Str(SpaceDollars(t)));
      }
    }
  }

  /** clean_json_node on a parsed reply.  Values are rewritten before the
      text update here, which gives the same result as the source's order
      because a text the update reads is a scalar, and scalars are left as
      they are. */
  function Clean(v: Value): (r: Value)
    ensures r.List? <==> v.List?
    ensures r.Object? <==> v.Object?
    ensures v.List? ==> |r.items| == |v.items|
    ensures v.Object? ==> SameKeys(r.fields, v.fields)
    ensures !v.List? && !v.Object? ==> r == v
    decreases v
  {
    match v
    case List(items) => List(CleanItems(v, items))
    case Object(fs) =>
      var cleaned := CleanFields(v, fs);
      RetextKeys(cleaned);
      Object(Retext(cleaned))
    case _ => v
  }

  function CleanItems(ghost parent: Value, items: seq<Value>): (r: seq<Value>)
    requires parent.List? && items == parent.items
    ensures |r| == |items|
    decreases parent, 0
  {
    seq(|items|, i requires 0 <= i < |items| => Clean(items[i]))
  }

  function CleanFields(ghost parent: Value, fs: Obj): (r: Obj)
    requires parent.Object? && fs == parent.fields
    ensures SameKeys(r, fs)
    ensures forall i :: 0 <= i < |fs| ==> r[i].1 == Clean(fs[i].1)
    decreases parent, 1
  {
    seq(|fs|, i requires 0 <= i < |fs| => (fs[i].0, CleanEntry(parent, fs[i])))
  }

  function CleanEntry(ghost parent: Value, entry: (string, Value)): Value
    requires parent.Object? && entry in parent.fields
    decreases parent, 0
  {
    assert entry.1 < entry;
    Clean(entry.1)
  }

  /** Cleaning every value of a dict keeps what each key finds, cleaned. */
  lemma {:induction false} GetCleaned(a: Obj, b: Obj, key: string)
    requires SameKeys(a, b) && forall i :: 0 <= i < |a| ==> b[i].1 == Clean(a[i].1)
    ensures Get(b, key) == if HasKey(a, key) then Some(Clean(Get(a, key).value)) else None
    decreases |a|
  {
    if a != [] && a[0].0 != key {
      assert forall i :: 0 <= i < |a| - 1 ==> a[1..][i] == a[i + 1] && b[1..][i] == b[i + 1];
      GetCleaned(a[1..], b[1..], key);
    }
  }

  /** A heading dict with string text: the text loses its numbering, every
      other key holds its own value cleaned, and the keys stay in order. */
  lemma HeadingNode(fs: Obj, text: string)
    requires Get(fs, "type") == Some(Str("heading")) && Get(fs, "text") == Some(Str(text)) && text != ""
    ensures Get(Clean(Object(fs)).fields, "text") == Some(Str(CleanHeading(text)))
    ensures forall key :: key != "text" && HasKey(fs, key) ==>
      Get(Clean(Object(fs)).fields, key) == Some(Clean(Get(fs, key).value))
    ensures SameKeys(Clean(Object(fs)).fields, fs)
  {
    var v := Object(fs);
    var cleaned := CleanFields(v, fs);
    assert Clean(v).fields == Set(cleaned, "text", Str(CleanHeading(text))) by {
      GetCleaned(fs, cleaned, "type");
      GetCleaned(fs, cleaned, "text");
    }
    OtherKeysCleaned(fs, Str(CleanHeading(text)));
  }

  /** When cleaning a dict rewrites only its text, every other key holds its
      own value cleaned. */
  lemma OtherKeysCleaned(fs: Obj, x: Value)
    requires Clean(Object(fs)).fields == Set(CleanFields(Object(fs), fs), "text", x)
    ensures forall key :: key != "text" && HasKey(fs, key) ==>
      Get(Clean(Object(fs)).fields, key) == Some(Clean(Get(fs, key).value))
  {
    var cleaned := CleanFields(Object(fs), fs);
    forall key | key != "text" && HasKey(fs, key)
      ensures Get(Clean(Object(fs)).fields, key) == Some(Clean(Get(fs, key).value))
    {
      GetCleaned(fs, cleaned, key);
    }
  }

  /** A paragraph dict with string text: the text gets its math spacing, so
      no letter touches a dollar sign, and every other key holds its own
      value cleaned. */
  lemma ParagraphNode(fs: Obj, text: string)
    requires Get(fs, "type") == Some(Str("paragraph")) && Get(fs, "text") == Some(Str(text)) && text != ""
    ensures Get(Clean(Object(fs)).fields, "text") == Some(Str(SpaceDollars(text)))
    ensures NoPair(SpaceDollars(text), LetterDollar) && NoPair(SpaceDollars(text), DollarLetter)
    ensures forall key :: key != "text" && HasKey(fs, key) ==>
      Get(Clean(Object(fs)).fields, key) == Some(Clean(Get(fs, key).value))
  {
    var v := Object(fs);
    var cleaned := CleanFields(v, fs);
    assert Clean(v).fields == Set(cleaned, "text", Str(SpaceDollars(text))) by {
      GetCleaned(fs, cleaned, "type");
      GetCleaned(fs, cleaned, "text");
    }
    SpaceDollarsSpec(text);
    OtherKeysCleaned(fs, Str(SpaceDollars(text)));
  }

  // ---- One attempt ----

  predicate IsRateLimit(message: string)
  {
    Contains(message, "429") || Contains(Lower(message), "rate limit") || Contains(message, "RESOURCE_EXHAUSTED")
  }

  predicate IsAuthError(message: string)
  {
    Contains(message, "401") || Contains(Lower(message), "authentication")
  }

  predicate IsNotFound(message: string)
  {
    Contains(message, "404") || Contains(Lower(message), "not found")
  }

  function Pow2(n: nat): (r: nat)
    ensures r >= 1
  {
    if n == 0 then 1 else 2 * Pow2(n - 1)
  }

  /** The plain pause before another attempt: 2 s, then 4 s. */
  function LinearDelay(attempt: nat): nat { BaseDelay * (attempt + 1) }

  /** The pause after a rate-limit error: 10 s, then 20 s. */
  function BackoffDelay(attempt: nat): nat { BaseDelay * Pow2(attempt) * 5 }

  /** Retry while attempts remain, otherwise return the error. */
  function RetryOr(attempt: nat, delay: nat, error: Value): (s: Step)
  {
    if attempt < MaxRetries - 1 then Retry(delay) else Finish(error)
  }

  /** The reply text json.loads is given: fences stripped, lone backslashes
      doubled. */
  function Cleaned(raw: string): string
  {
    FixBackslashes(StripFences(raw))
  }

  /** Handling a reply with content: a parse error retries or reports the
      error with the first 500 characters of the cleaned text; a dict with
      neither "type" nor "sections" retries, except on the last attempt,
      which cleans and returns it like any other value. */
  function Interpret(attempt: nat, raw: string, parse: string -> Parse): Step
  {
    var content := Cleaned(raw);
    match parse(content)
    case ParseError(message) =>
      RetryOr(attempt, LinearDelay(attempt),
        Object([("error", Str("JSON parse failed: " + message)), ("raw_content", Str(Prefix(content, 500)))]))
    case Parsed(v) =>
      if v.Object? && !HasKey(v.fields, "sections") && !HasKey(v.fields, "type") && attempt < MaxRetries - 1
      then Retry(LinearDelay(attempt))
      else Finish(Clean(v))
  }

  /** Handling an exception: rate limits back off exponentially and are
      reported after the last attempt; authentication and missing-model
      errors return at once; anything else retries, then is reported as is. */
  function Classify(attempt: nat, message: string, model: string): Step
  {
    if IsRateLimit(message) then RetryOr(attempt, BackoffDelay(attempt), ErrorObj(RateLimitExceeded))
    else if IsAuthError(message) then Finish(ErrorObj(AuthFailed))
    else if IsNotFound(message) then Finish(ErrorObj("Model not found: " + model))
    else RetryOr(attempt, LinearDelay(attempt), ErrorObj(message))
  }

  /** What the node does with the outcome of attempt `attempt` (0-based). */
  function Decide(attempt: nat, outcome: Outcome, model: string, parse: string -> Parse): (s: Step)
    ensures s.Retry? ==> attempt < MaxRetries - 1
    ensures s.Retry? ==>
      s.delay == if outcome.Raised? && IsRateLimit(outcome.message) then BackoffDelay(attempt) else LinearDelay(attempt)
    ensures s.Finish? ==>
      (s.result.Object? && HasKey(s.result.fields, "error")) ||
      (outcome.Response? && outcome.content.Some? &&
       parse(Cleaned(outcome.content.value)).Parsed? &&
       s.result == Clean(parse(Cleaned(outcome.content.value)).value))
  {
    match outcome
    case NoResponse => RetryOr(attempt, LinearDelay(attempt), ErrorObj(EmptyResponse))
    case Response(content) =>
      if content.None? || content.value == "" then RetryOr(attempt, LinearDelay(attempt), ErrorObj(EmptyContent))
      else Interpret(attempt, content.value, parse)
    case Raised(message) => Classify(attempt, message, model)
  }

  /** Authentication and missing-model errors are never retried, whichever
      attempt they hit. */
  lemma FailFast(attempt: nat, message: string, model: string, parse: string -> Parse)
    requires !IsRateLimit(message) && (IsAuthError(message) || IsNotFound(message))
    ensures Decide(attempt, Raised(message), model, parse).Finish?
    ensures IsAuthError(message) ==> Decide(attempt, Raised(message), model, parse).result == ErrorObj(AuthFailed)
  {
  }

  /** Rate limits wait 10 s then 20 s, doubling, and the third one is reported. */
  lemma RateLimitSchedule(message: string, model: string, parse: string -> Parse)
    requires IsRateLimit(message)
    ensures Decide(0, Raised(message), model, parse) == Retry(10)
    ensures Decide(1, Raised(message), model, parse) == Retry(20)
    ensures Decide(2, Raised(message), model, parse) == Finish(ErrorObj(RateLimitExceeded))
  {
  }

  lemma BackoffDoubles(attempt: nat)
    ensures BackoffDelay(attempt + 1) == 2 * BackoffDelay(attempt)
  {
  }

  /** A reply fenced as a json block whose body parses to a chapter dict is
      returned cleaned, on any attempt. */
  lemma FencedChapterAccepted(attempt: nat, body: string, v: Value, model: string, parse: string -> Parse)
    requires body == [] || body[0] != '`'
    requires parse(FixBackslashes(Strip(body))) == Parsed(v)
    requires v.Object? && HasKey(v.fields, "type")
    ensures Decide(attempt, Response(Some("```json" + body + "```")), model, parse) == Finish(Clean(v))
  {
    JsonFenceRoundTrip(body);
  }

  // ---- structurer_node ----

  /** structurer_node.  A blank chunk returns an error without calling the
      model; a long chunk is truncated before it is sent; a Gemini model
      without a key returns an error without calling; otherwise at most three
      attempts are made, each decided by Decide, with the pause before each
      retry recorded in `delays`.  The loop never falls through: the last
      attempt always returns, so the source's "Failed after 3 retries" line is
      unreachable. */
  method StructurerNode(chunk: string, env: Agents.Env, service: (string, nat) -> Outcome, parse: string -> Parse)
    returns (r: Value, calls: nat, delays: seq<nat>)
    ensures calls <= MaxRetries
    ensures IsBlank(chunk) ==> r == ErrorObj(EmptyChunk) && calls == 0
    ensures !IsBlank(chunk) && Agents.MissingKey(ModelFor(env), env) ==> r == ErrorObj(MissingKeyMessage) && calls == 0
    ensures calls == 0 ==> delays == [] && (IsBlank(chunk) || Agents.MissingKey(ModelFor(env), env))
    ensures calls > 0 ==>
      |delays| == calls - 1 && RetriedWith(delays, Truncate(chunk), ModelFor(env), service, parse) &&
      Decide(calls - 1, service(Truncate(chunk), calls - 1), ModelFor(env), parse) == Finish(r)
  {
    if IsBlank(chunk) {
      return ErrorObj(EmptyChunk), 0, [];
    }
    r, calls, delays := Attempts(Truncate(chunk), ModelFor(env), env, service, parse);
  }

  /** The retry loop of structurer_node on the truncated text. */
  method Attempts(text: string, model: string, env: Agents.Env, service: (string, nat) -> Outcome,
                  parse: string -> Parse)
    returns (r: Value, calls: nat, delays: seq<nat>)
    ensures calls <= MaxRetries
    ensures Agents.MissingKey(model, env) ==> r == ErrorObj(MissingKeyMessage) && calls == 0 && delays == []
    ensures !Agents.MissingKey(model, env) ==>
      0 < calls && |delays| == calls - 1 && RetriedWith(delays, text, model, service, parse) &&
      Decide(calls - 1, service(text, calls - 1), model, parse) == Finish(r)
  {
    delays := [];
    var attempt := 0;
    calls := 0;
    while true
      invariant attempt < MaxRetries && calls == attempt && |delays| == attempt
      invariant RetriedWith(delays, text, model, service, parse)
      invariant Agents.MissingKey(model, env) ==> calls == 0
      decreases MaxRetries - attempt
    {
      if Agents.MissingKey(model, env) {
        return ErrorObj(MissingKeyMessage), calls, delays;
      }
      var step := Decide(attempt, service(text, attempt), model, parse);
      calls := calls + 1;
      match step
      case Finish(result) =>
        return result, calls, delays;
      case Retry(delay) =>
        RetriedWithSnoc(delays, delay, text, model, service, parse);
        delays := delays + [delay];
        attempt := attempt + 1;
    }
  }

  /** Attempt k was answered with a retry after delays[k], for every k so far. */
  ghost predicate RetriedWith(delays: seq<nat>, text: string, model: string, service: (string, nat) -> Outcome,
                              parse: string -> Parse)
  {
    forall k :: 0 <= k < |delays| ==> Decide(k, service(text, k), model, parse) == Retry(delays[k])
  }

  lemma RetriedWithSnoc(delays: seq<nat>, delay: nat, text: string, model: string,
                        service: (string, nat) -> Outcome, parse: string -> Parse)
    requires RetriedWith(delays, text, model, service, parse)
    requires Decide(|delays|, service(text, |delays|), model, parse) == Retry(delay)
    ensures RetriedWith(delays + [delay], text, model, service, parse)
  {
    var d := delays + [delay];
    forall k | 0 <= k < |d|
      ensures Decide(k, service(text, k), model, parse) == Retry(d[k])
    {
      if k < |delays| {
        assert d[k] == delays[k];
      }
    }
  }
}
