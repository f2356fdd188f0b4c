// The three nodes of the per-chunk expansion graph (analyst, drafter,
// critic) and the model router.  Every remote completion is an oracle: the
// function `service` gives the outcome of the k-th attempt.
module Agents {
  import opened TextUtil

  const DefaultFallbackModel: string := "gemini/gemini-2.0-flash"
  const OllamaModel: string := "ollama/llama3"
  const Approved: string := "APPROVED"

  const MathKeywords: seq<string> := [
    "\\frac", "\\int", "\\sum", "\\partial", "differential", "derivation", "equation",
    "thermodynamic", "calculus", "matrix", "eigenvalue", "Laplace", "Fourier", "\\nabla", "\\Delta"]

  /** The environment variables the nodes read; None means unset. */
  datatype Env = Env(
    provider: Option<string>,      // LLM_PROVIDER
    defaultModel: Option<string>,  // DEFAULT_MODEL
    mathModel: Option<string>,     // MATH_MODEL
    flashModel: Option<string>,    // FLASH_MODEL
    googleKey: Option<string>,     // GOOGLE_API_KEY
    geminiKey: Option<string>)     // GEMINI_API_KEY

  /** What one completion attempt produced. */
  datatype Attempt =
    | Reply(content: Option<string>)   // a response with choices; None = no content
    | NoChoices                        // an empty or invalid response object
    | ConnectionLost                   // litellm.APIConnectionError
    | Failure(message: string)         // any other exception, as str(e)

  /** `os.getenv(name) or ...`: an unset or empty variable is falsy. */
  predicate IsSet(v: Option<string>) { v.Some? && v.value != "" }

  /** GOOGLE_API_KEY or GEMINI_API_KEY */
  predicate HasApiKey(env: Env) { IsSet(env.googleKey) || IsSet(env.geminiKey) }

  /** A Gemini model cannot be called without a key. */
  predicate MissingKey(model: string, env: Env) { StartsWith(model, "gemini/") && !HasApiKey(env) }

  /** _get_model: DEFAULT_MODEL, with an unset or empty value replaced by the fallback. */
  function GetModel(env: Env): (r: string)
    ensures r != ""
    ensures r == env.defaultModel.value <== env.defaultModel.Some? && env.defaultModel.value != ""
    ensures r == DefaultFallbackModel <== env.defaultModel.None? || env.defaultModel == Some("")
  {
    if IsSet(env.defaultModel) then env.defaultModel.value else DefaultFallbackModel
  }

  function ProviderName(env: Env): string
  {
    Lower(if env.provider.Some? then env.provider.value else "gemini")
  }

  predicate IsMathChunk(chunk: string)
  {
    chunk != "" && exists k :: 0 <= k < |MathKeywords| && Contains(chunk, MathKeywords[k])
  }

  /** _select_model: ollama overrides everything; otherwise math chunks go to
      MATH_MODEL and prose to FLASH_MODEL, both defaulting to DEFAULT_MODEL
      (here an empty DEFAULT_MODEL is kept, unlike _get_model). */
  function SelectModel(env: Env, chunk: string): (r: string)
    ensures ProviderName(env) == "ollama" ==> r == OllamaModel
    ensures ProviderName(env) != "ollama" && IsMathChunk(chunk) && env.mathModel.Some? ==> r == env.mathModel.value
    ensures ProviderName(env) != "ollama" && !IsMathChunk(chunk) && env.flashModel.Some? ==> r == env.flashModel.value
    ensures (ProviderName(env) != "ollama" && env.defaultModel != Some("") &&
             (if IsMathChunk(chunk) then env.mathModel.None? else env.flashModel.None?)) ==> r == GetModel(env)
  {
    if ProviderName(env) == "ollama" then OllamaModel
    else
      var base := if env.defaultModel.Some? then env.defaultModel.value else DefaultFallbackModel;
      if IsMathChunk(chunk) then (if env.mathModel.Some? then env.mathModel.value else base)
      else (if env.flashModel.Some? then env.flashModel.value else base)
  }

  /** A chunk quoting a math keyword is routed to MATH_MODEL when it is set,
      whatever the keyword's position, and to DEFAULT_MODEL's choice otherwise. */
  lemma {:induction false} MathRouting(env: Env, chunk: string, k: nat)
    requires ProviderName(env) != "ollama"
    requires k < |MathKeywords| && Contains(chunk, MathKeywords[k])
    ensures env.mathModel.Some? ==> SelectModel(env, chunk) == env.mathModel.value
    ensures env.mathModel.None? && env.defaultModel != Some("") ==> SelectModel(env, chunk) == GetModel(env)
  {
    var i := ContainsWitness(chunk, MathKeywords[k]);
    assert chunk != "";
    assert IsMathChunk(chunk);
  }

  /** A chunk quoting no math keyword (an empty chunk among them) is prose:
      FLASH_MODEL when set, DEFAULT_MODEL's choice otherwise. */
  lemma {:induction false} ProseRouting(env: Env, chunk: string)
    requires ProviderName(env) != "ollama"
    requires forall k :: 0 <= k < |MathKeywords| ==> !Contains(chunk, MathKeywords[k])
    ensures env.flashModel.Some? ==> SelectModel(env, chunk) == env.flashModel.value
    ensures env.flashModel.None? && env.defaultModel != Some("") ==> SelectModel(env, chunk) == GetModel(env)
  {
    assert !IsMathChunk(chunk);
  }

  /** An empty DEFAULT_MODEL reaches _select_model unchanged: a prose chunk
      with FLASH_MODEL unset is routed to the empty model name, where
      _get_model would use the fallback. */
  lemma {:induction false} EmptyDefaultModelSelected(env: Env)
    requires ProviderName(env) != "ollama" && env.defaultModel == Some("") && env.flashModel.None?
    ensures SelectModel(env, "") == "" && GetModel(env) == DefaultFallbackModel
  {
  }

  /** The drafter and critic treat these exception messages as network trouble
      and retry after a pause. */
  predicate IsNetworkMessage(message: string)
  {
    var m := Lower(message);
    Contains(m, "11001") || Contains(m, "getaddrinfo") || Contains(m, "time")
  }

  // ---- Analyst ----

  const AnalystError: string := "Error: Analyst"
  const AnalystEmptyChunk: string := AnalystError + " received empty chunk."
  const AnalystMissingKey: string := AnalystError + " failed - missing API key."
  const AnalystApiError: string := AnalystError + " failed to generate plan due to API error."

  /** str(NameError) for the unbound name the analyst's request reads. */
  const UnboundProviderMessage: string := "name 'provider' is not defined"

  /** Character facts about the NameError message. */
  lemma UnboundProviderLetters()
    ensures forall i :: 0 <= i < |UnboundProviderMessage| ==> !('A' <= UnboundProviderMessage[i] <= 'Z')
    ensures forall i :: 0 <= i < |UnboundProviderMessage| - 1 ==>
      UnboundProviderMessage[i] != '1' && UnboundProviderMessage[i] != 'g' &&
      (UnboundProviderMessage[i] != 't' || UnboundProviderMessage[i + 1] != 'i')
  {
  }

  /** A lower-case message without "11001", "getaddrinfo" or "ti" is not a
      network message. */
  lemma NotNetworkByLetters(m: string)
    requires forall i :: 0 <= i < |m| ==> !('A' <= m[i] <= 'Z')
    requires forall i :: 0 <= i < |m| - 1 ==> m[i] != '1' && m[i] != 'g' && (m[i] != 't' || m[i + 1] != 'i')
    ensures !IsNetworkMessage(m)
  {
    LowerIdentity(m);
    NoLeadingPair(m, "11001");
    NoLeadingPair(m, "getaddrinfo");
    NoLeadingPair(m, "time");
  }

  lemma UnboundProviderIsNotNetwork()
    ensures !IsNetworkMessage(UnboundProviderMessage)
  {
    UnboundProviderLetters();
    NotNetworkByLetters(UnboundProviderMessage);
  }

  /** analyst_node.  A blank chunk and a Gemini model without a key are
      reported before any request.  Otherwise building the request reads the
      name `provider`, which is not bound in this function, so the first attempt
      raises NameError; its message is not a network message, so it is
      re-raised and the outer handler reports an API error.  No completion is
      ever requested, so no attempt outcome appears here. */
  function AnalystNode(chunk: string, env: Env): (analysis: string)
    ensures StartsWith(analysis, AnalystError)
  {
    StartsWithAppend(AnalystError, " received empty chunk.");
    StartsWithAppend(AnalystError, " failed - missing API key.");
    StartsWithAppend(AnalystError, " failed to generate plan due to API error.");
    if IsBlank(chunk) then AnalystEmptyChunk
    else if MissingKey(SelectModel(env, chunk), env) then AnalystMissingKey
    else
      UnboundProviderIsNotNetwork();
      AnalystApiError
  }

  // ---- Drafter ----

  const DrafterRetries: nat := 3

  datatype DraftOutcome =
    | Drafted(expanded: string, revisionCount: int)
    | Raised(message: string)   // an exception that escapes drafter_node

  /** The drafter gets past its early returns and its key check. */
  predicate DrafterProceeds(chunk: string, analysis: string, env: Env)
  {
    !IsBlank(chunk) && !StartsWith(analysis, AnalystError) && !MissingKey(GetModel(env), env)
  }

  /** An exception the drafter re-raises: a failure whose message is not a
      network message. */
  predicate IsFatal(outcome: Attempt)
  {
    outcome.Failure? && !IsNetworkMessage(outcome.message)
  }

  /** drafter_node.  A blank chunk or a failed analysis returns the chunk at
      once.  Otherwise up to three attempts are made; network errors retry,
      any other exception escapes the node (it is raised inside a handler, so
      the sibling `except Exception` never sees it).  A successful reply is
      never stored: the code that would keep it sits after a `raise` in the
      handler and cannot run, so every path that returns gives back the
      original chunk with the revision count one higher. */
  method DrafterNode(chunk: string, analysis: string, revisionCount: int, env: Env, service: nat -> Attempt)
    returns (r: DraftOutcome, calls: nat)
    ensures calls <= DrafterRetries
    ensures r.Drafted? ==> r.expanded == chunk && r.revisionCount == revisionCount + 1
    ensures r.Raised? ==> exists a :: 0 <= a < calls && service(a) == Failure(r.message) && !IsNetworkMessage(r.message)
    ensures (IsBlank(chunk) || StartsWith(analysis, AnalystError)) ==> r.Drafted? && calls == 0
    ensures MissingKey(GetModel(env), env) ==> r.Drafted? && calls == 0
    ensures (forall a :: 0 <= a < DrafterRetries ==> !service(a).Failure?) ==> r.Drafted?
    ensures forall a :: (0 <= a < DrafterRetries && DrafterProceeds(chunk, analysis, env) && IsFatal(service(a)) &&
                         (forall b :: 0 <= b < a ==> !IsFatal(service(b)))) ==>
      r == Raised(service(a).message) && calls == a + 1
    ensures r.Drafted? && DrafterProceeds(chunk, analysis, env) ==> calls == DrafterRetries
  {
    calls := 0;
    if IsBlank(chunk) || (analysis != "" && StartsWith(analysis, AnalystError)) {
      return Drafted(chunk, revisionCount + 1), 0;
    }
    var model := GetModel(env);
    var attempt := 0;
    while attempt < DrafterRetries
      invariant 0 <= attempt <= DrafterRetries && calls == attempt
      invariant MissingKey(model, env) ==> calls == 0
      invariant forall a :: 0 <= a < attempt ==> !IsFatal(service(a))
    {
      if MissingKey(model, env) {
        break;
      }
      var outcome := service(attempt);
      calls := calls + 1;
      match outcome {
        case ConnectionLost =>
        case Failure(message) =>
          if !IsNetworkMessage(message) {
            return Raised(message), calls;
          }
        case Reply(_) =>
        case NoChoices =>
      }
      attempt := attempt + 1;
    }
    r := Drafted(chunk, revisionCount + 1);
  }

  // ---- Critic ----

  const CriticRetries: nat := 5

  const CleanEnds: seq<string> := [".", "!", "?", "\"", "'", "```", "}", "]", ")", "_", "*"]

  const TruncationFeedback: string :=
    "TRUNCATION DETECTED: The text abruptly cuts off at the very end. " +
    "You likely hit the maximum output token limit. " +
    "You MUST rewrite the ending to ensure it finishes its thought cleanly with proper punctuation or closing tags like \\end{equation}."

  const ArtifactFeedback: string := "ARTIFACT DETECTED: Remove ```markdown code fences from the output."

  /** Three decimal digits, zero padded. */
  function Pad3(n: nat): string
    requires n < 1000
  {
    [DigitChar(n / 100), DigitChar(n / 10 % 10), DigitChar(n % 10)]
  }

  /** f"{n:,}" for a natural number: digits grouped by thousands. */
  function Grouped(n: nat): (r: string)
    ensures r != ""
  {
    if n < 1000 then NatToString(n) else Grouped(n / 1000) + "," + Pad3(n % 1000)
  }

  /** f"{n:,}" for any integer. */
  function Thousands(n: int): string
  {
    if n < 0 then "-" + Grouped(-n) else Grouped(n)
  }

  const LowEffortTag: string := "LOW EFFORT"

  /** The low-effort rejection, quoting both lengths with thousands separators. */
  function LowEffortFeedback(length: nat, target: int): (r: string)
    ensures StartsWith(r, LowEffortTag)
  {
    var rest := ": The expanded text is only " + Grouped(length) + " characters long, " +
      "which is below the strict requirement of " + Thousands(target) + " characters. " +
      "You MUST produce a much longer expansion. " +
      "Go deeper: add more derivations, more mirror problems with " +
      "randomized values, more [NEW_DIAGRAM: ...] tags. " +
      "Do not summarize \U{2014} DERIVE and EXPAND.";
    StartsWithAppend(LowEffortTag, rest);
    LowEffortTag + rest
  }

  predicate EndsClean(t: string)
  {
    exists k :: 0 <= k < |CleanEnds| && EndsWith(t, CleanEnds[k])
  }

  /** The critic's local checks, in order; None means the draft goes to the
      remote reviewer, which happens exactly when draft and chunk are
      non-blank and the draft is long enough, ends cleanly and carries no
      code fence; a non-blank draft shorter than the target is
      always sent back with LOW EFFORT feedback. */
  function CriticGate(expanded: string, original: string, targetChars: int): (r: Option<string>)
    ensures r.None? <==>
      !IsBlank(expanded) && !IsBlank(original) && |expanded| >= targetChars && EndsClean(Strip(expanded)) &&
      !Contains(expanded, "```markdown") && !StartsWith(Strip(expanded), "```")
    ensures !IsBlank(expanded) && !IsBlank(original) && |expanded| < targetChars ==>
      r == Some(LowEffortFeedback(|expanded|, targetChars))
    ensures IsBlank(expanded) || IsBlank(original) ==> r == Some(Approved)
    ensures !IsBlank(expanded) && !IsBlank(original) && |expanded| >= targetChars && !EndsClean(Strip(expanded)) ==>
      r == Some(TruncationFeedback)
    ensures (!IsBlank(expanded) && !IsBlank(original) && |expanded| >= targetChars && EndsClean(Strip(expanded)) &&
             (Contains(expanded, "```markdown") || StartsWith(Strip(expanded), "```"))) ==>
      r == Some(ArtifactFeedback)
  {
    if IsBlank(expanded) || IsBlank(original) then Some(Approved)
    else if |expanded| < targetChars then Some(LowEffortFeedback(|expanded|, targetChars))
    else if !EndsClean(Strip(expanded)) then Some(TruncationFeedback)
    else if Contains(expanded, "```markdown") || StartsWith(Strip(expanded), "```") then Some(ArtifactFeedback)
    else None
  }

  /** The remote review from attempt `attempt` on, once the key is known to be
      present: the feedback and the number of calls made.  Network errors
      retry; any other failure, an empty response or empty content approves;
      running out of attempts approves. */
  function RemoteReview(service: nat -> Attempt, attempt: nat): (string, nat)
    decreases CriticRetries - attempt
  {
    if attempt >= CriticRetries then (Approved, attempt)
    else match service(attempt)
      case ConnectionLost => RemoteReview(service, attempt + 1)
      case Failure(message) =>
        if IsNetworkMessage(message) then RemoteReview(service, attempt + 1) else (Approved, attempt + 1)
      case NoChoices => (Approved, attempt + 1)
      case Reply(content) =>
        if content.None? || content.value == "" then (Approved, attempt + 1)
        else (Strip(content.value), attempt + 1)
  }

  /** An attempt that fails with a network error. */
  predicate NetworkTrouble(a: Attempt)
  {
    a.ConnectionLost? || (a.Failure? && IsNetworkMessage(a.message))
  }

  /** When the first attempt that is not network trouble lies within the five
      and brings back non-empty content, that content, stripped, is the
      feedback, after exactly that many calls. */
  lemma {:induction false} ReplyBecomesFeedback(service: nat -> Attempt, attempt: nat, k: nat, content: string)
    requires attempt <= k < CriticRetries
    requires forall j :: attempt <= j < k ==> NetworkTrouble(service(j))
    requires service(k) == Reply(Some(content)) && content != ""
    ensures RemoteReview(service, attempt) == (Strip(content), k + 1)
    decreases k - attempt
  {
    if attempt < k {
      assert NetworkTrouble(service(attempt));
      ReplyBecomesFeedback(service, attempt + 1, k, content);
    }
  }

  /** critic_node.  Local gates first; then up to five attempts, retrying only
      on network errors.  Every failure approves by default; the only feedback
      that is not a gate message or APPROVED is a reply's stripped content. */
  method CriticNode(expanded: string, original: string, targetChars: int, env: Env, service: nat -> Attempt)
    returns (feedback: string, calls: nat)
    ensures calls <= CriticRetries
    ensures CriticGate(expanded, original, targetChars).Some? ==>
      feedback == CriticGate(expanded, original, targetChars).value && calls == 0
    ensures CriticGate(expanded, original, targetChars).None? ==>
      feedback == Approved ||
      (calls >= 1 && service(calls - 1).Reply? && service(calls - 1).content.Some? &&
       service(calls - 1).content.value != "" && feedback == Strip(service(calls - 1).content.value))
    ensures CriticGate(expanded, original, targetChars).None? && MissingKey(GetModel(env), env) ==>
      feedback == Approved && calls == 0
    ensures CriticGate(expanded, original, targetChars).None? && !MissingKey(GetModel(env), env) ==>
      (feedback, calls) == RemoteReview(service, 0)
  {
    var gate := CriticGate(expanded, original, targetChars);
    if gate.Some? {
      return gate.value, 0;
    }
    var model := GetModel(env);
    calls := 0;
    var attempt := 0;
    while attempt < CriticRetries
      invariant 0 <= attempt <= CriticRetries && calls == attempt
      invariant MissingKey(model, env) ==> calls == 0
      invariant !MissingKey(model, env) ==> RemoteReview(service, 0) == RemoteReview(service, attempt)
    {
      if MissingKey(model, env) {
        return Approved, calls;
      }
      var outcome := service(attempt);
      calls := calls + 1;
      match outcome {
        case ConnectionLost =>
        case Failure(message) =>
          if !IsNetworkMessage(message) {
            // re-raised, caught by the outer handler: approve by default
            return Approved, calls;
          }
        case NoChoices =>
          return Approved, calls;
        case Reply(content) =>
          if content.None? || content.value == "" {
            return Approved, calls;
          }
          return Strip(content.value), calls;
      }
      attempt := attempt + 1;
    }
    // every attempt hit a network error: the for/else approves
    feedback := Approved;
  }
}
