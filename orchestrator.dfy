// The master orchestrator: phase checkpoint and resume, the fresh-run purge,
// the Phase-2 swarm over per-chunk checkpoint files, the Phase-4 structuring
// merge and the capped diagram pass.  The swarms run their tasks one index
// at a time; files are maps and sequences.
module Orchestrator {
  import opened TextUtil
  import opened JsonValue
  import opened Agents
  import opened ExpansionGraph

  // ---- Phase checkpoint and start phase ----

  /** pipeline_state.json as load_state finds it. */
  datatype CheckpointFile =
    | Absent                                  // no state file
    | Garbled                                 // not valid JSON
    | Stored(completedPhase: Option<int>)     // a JSON object, with or without the key

  /** load_state()["completed_phase"], with the key's default. */
  function CompletedPhase(f: CheckpointFile): (r: int)
    ensures f.Absent? || f.Garbled? ==> r == 0
    ensures f.Stored? && f.completedPhase.Some? ==> r == f.completedPhase.value
  {
    match f
    case Stored(Some(p)) => p
    case _ => 0
  }

  datatype Launch =
    | Run(startPhase: int, isResume: bool)
    | NothingToResume     // exit status 0
    | PdfNotFound         // exit status 1

  /** The command-line entry point's choice of start phase.  `phase` is the
      `--phase` option, which the argument parser limits to 1..4. */
  function ChooseStart(resume: bool, isResumeFlag: bool, phase: Option<int>,
                       checkpoint: CheckpointFile, pdfGiven: bool, pdfExists: bool): (r: Launch)
    requires phase.Some? ==> 1 <= phase.value <= 4
    ensures resume ==> (r == NothingToResume <==> CompletedPhase(checkpoint) >= 4)
    ensures resume && r.Run? ==> r.startPhase == CompletedPhase(checkpoint) + 1 && r.isResume
    ensures !resume && r.Run? ==>
      r.startPhase == (if phase.Some? then phase.value else 1) && r.isResume == isResumeFlag
    ensures !resume ==> r != NothingToResume
    ensures r == PdfNotFound <==>
      (if resume then CompletedPhase(checkpoint) + 1 else (if phase.Some? then phase.value else 1)) <= 1 &&
      !(resume && CompletedPhase(checkpoint) >= 4) && !(pdfGiven && pdfExists)
    ensures r.Run? ==> r.startPhase <= 4
  {
    var start := if resume then CompletedPhase(checkpoint) + 1 else if phase.Some? then phase.value else 1;
    if resume && start > 4 then NothingToResume
    else if start <= 1 && !(pdfGiven && pdfExists) then PdfNotFound
    else Run(start, isResumeFlag || resume)
  }

  /** Phase k's work is done in a run that starts at `start`: phases 1-3 are
      guarded by `start_phase <= k`; Phase 4's body runs unconditionally. */
  predicate RunsPhase(start: int, k: int)
  {
    1 <= k <= 4 && (k == 4 || start <= k)
  }

  /** The output directory is purged only for a fresh run from Phase 1. */
  predicate Purges(l: Launch)
  {
    l.Run? && l.startPhase == 1 && !l.isResume
  }

  /** Resuming never repeats a completed phase and never purges. */
  lemma ResumeSkipsCompleted(isResumeFlag: bool, phase: Option<int>, checkpoint: CheckpointFile,
                             pdfGiven: bool, pdfExists: bool, k: int)
    requires phase.Some? ==> 1 <= phase.value <= 4
    requires ChooseStart(true, isResumeFlag, phase, checkpoint, pdfGiven, pdfExists).Run?
    requires RunsPhase(ChooseStart(true, isResumeFlag, phase, checkpoint, pdfGiven, pdfExists).startPhase, k)
    ensures k > CompletedPhase(checkpoint)
    ensures !Purges(ChooseStart(true, isResumeFlag, phase, checkpoint, pdfGiven, pdfExists))
  {
    var l := ChooseStart(true, isResumeFlag, phase, checkpoint, pdfGiven, pdfExists);
    assert l.startPhase == CompletedPhase(checkpoint) + 1 <= 4;
  }

  // ---- Fresh-run purge ----

  /** clear_with_exceptions over the output directory's top-level entries
      (resolved paths).  An entry is kept exactly when it is one of the given
      exceptions; every other file or directory is deleted whole. */
  method PurgeOutput(items: seq<string>, exceptions: seq<Option<string>>)
    returns (kept: seq<string>, removed: seq<string>)
    ensures (kept, removed) == Purge(items, exceptions)
    ensures |kept| + |removed| == |items|
    ensures forall x :: x in kept ==> x in items && Some(x) in exceptions
    ensures forall x :: x in removed ==> x in items && Some(x) !in exceptions
    ensures forall x :: x in items ==> (x in kept <==> Some(x) in exceptions)
    ensures forall x :: x in items ==> (x in removed <==> Some(x) !in exceptions)
  {
    kept, removed := [], [];
    var n := 0;
    while n < |items|
      invariant 0 <= n <= |items|
      invariant |kept| + |removed| == n
      invariant forall x :: x in kept ==> x in items[..n] && Some(x) in exceptions
      invariant forall x :: x in removed ==> x in items[..n] && Some(x) !in exceptions
      invariant forall j :: 0 <= j < n ==> (items[j] in kept || items[j] in removed)
      invariant (kept, removed) == Purge(items[..n], exceptions)
    {
      assert items[..n + 1][..n] == items[..n];
      var item := items[n];
      if Some(item) in exceptions {
        kept := kept + [item];
      } else {
        removed := removed + [item];
      }
      n := n + 1;
    }
    assert items[..n] == items;
  }

  /** The purge as a value: the kept and the deleted entries, each in
      directory order. */
  function Purge(items: seq<string>, exceptions: seq<Option<string>>): (seq<string>, seq<string>)
  {
    if items == [] then ([], [])
    else
      var (kept, removed) := Purge(items[..|items| - 1], exceptions);
      var x := items[|items| - 1];
      if Some(x) in exceptions then (kept + [x], removed) else (kept, removed + [x])
  }

  /** An entry is deleted exactly when it is not itself an exception. */
  lemma {:induction false} PurgeDeletes(items: seq<string>, exceptions: seq<Option<string>>, x: string)
    requires x in items
    ensures x in Purge(items, exceptions).1 <==> Some(x) !in exceptions
  {
    var init := items[..|items| - 1];
    var (kept, removed) := Purge(init, exceptions);
    if x in init {
      PurgeDeletes(init, exceptions, x);
    } else {
      assert x == items[|items| - 1] by {
        assert items == init + [items[|items| - 1]];
      }
      PurgeNotIn(init, exceptions, x);
    }
  }

  /** An entry not listed is never among the deleted ones. */
  lemma {:induction false} PurgeNotIn(items: seq<string>, exceptions: seq<Option<string>>, x: string)
    requires x !in items
    ensures x !in Purge(items, exceptions).1
  {
    if items != [] {
      PurgeNotIn(items[..|items| - 1], exceptions, x);
    }
  }

  /** The fresh run's exceptions: the input PDF, when one is given, and the
      server's jobs.json. */
  function FreshRunExceptions(outputDir: string, pdf: Option<string>): seq<Option<string>>
  {
    [pdf, Some(outputDir + "/jobs.json")]
  }

  /** An input PDF kept below a top-level directory of the output does not
      survive the purge: the exceptions are compared with top-level entries
      only, so that directory, which is not jobs.json, is deleted whole. */
  lemma {:induction false} NestedExceptionIsDeleted(items: seq<string>, outputDir: string, dir: string, name: string)
    requires dir in items && dir != outputDir + "/jobs.json"
    ensures dir in Purge(items, FreshRunExceptions(outputDir, Some(dir + "/" + name))).1
  {
    var exceptions := FreshRunExceptions(outputDir, Some(dir + "/" + name));
    assert |dir + "/" + name| > |dir|;
    assert Some(dir) !in exceptions;
    PurgeDeletes(items, exceptions, dir);
  }

  // ---- Phase 2 ----

  /** int(x) of a true quotient: truncation toward zero. */
  function TruncDiv(a: int, b: int): (q: int)
    requires b > 0
    ensures a >= 0 ==> q * b <= a < (q + 1) * b
    ensures a < 0 ==> q == -((-a) / b)
  {
    if a >= 0 then a / b else -((-a) / b)
  }

  const CharsPerPage: int := 3000
  const TargetCap: int := 22000

  /** The per-chunk length target: the book budget shared over all chunks, at
      least four times the chunk, and never above 22000. */
  function TargetChars(targetPages: int, total: int, chunkLength: nat): (r: int)
    requires total > 0
    ensures r <= TargetCap
    ensures r == TargetCap || (r >= 4 * chunkLength && r >= TruncDiv(targetPages * CharsPerPage, total))
    ensures r == TargetCap || r == 4 * chunkLength || r == TruncDiv(targetPages * CharsPerPage, total)
    ensures 4 * chunkLength <= TargetCap ==> r >= 4 * chunkLength
  {
    var share := TruncDiv(targetPages * CharsPerPage, total);
    var wanted := if share > 4 * chunkLength then share else 4 * chunkLength;
    if wanted < TargetCap then wanted else TargetCap
  }

  const SwarmDefaultModel: string := "groq/llama3-8b-8192"

  /** run_phase_2's concurrency tier from DEFAULT_MODEL (default kept when unset). */
  function Concurrency(defaultModel: Option<string>): (r: nat)
    ensures var m := Lower(if defaultModel.Some? then defaultModel.value else SwarmDefaultModel);
      (Contains(m, "flash") ==> r == 30) &&
      (!Contains(m, "flash") && Contains(m, "pro") ==> r == 10) &&
      (!Contains(m, "flash") && !Contains(m, "pro") ==> r == 15)
  {
    var m := Lower(if defaultModel.Some? then defaultModel.value else SwarmDefaultModel);
    if Contains(m, "flash") then 30 else if Contains(m, "pro") then 10 else 15
  }

  lemma SwarmDefaultLetters()
    ensures forall i :: 0 <= i < |SwarmDefaultModel| ==> !('A' <= SwarmDefaultModel[i] <= 'Z')
    ensures forall i :: 0 <= i < |SwarmDefaultModel| - 1 ==>
      SwarmDefaultModel[i] != 'f' && SwarmDefaultModel[i] != 'p'
  {
  }

  lemma NeitherFlashNorPro(m: string)
    requires forall i :: 0 <= i < |m| ==> !('A' <= m[i] <= 'Z')
    requires forall i :: 0 <= i < |m| - 1 ==> m[i] != 'f' && m[i] != 'p'
    ensures Concurrency(Some(m)) == 15
  {
    LowerIdentity(m);
    NoLeadingPair(m, "flash");
    NoLeadingPair(m, "pro");
  }

  /** With DEFAULT_MODEL unset the swarm runs 15 tasks at a time. */
  lemma DefaultConcurrency()
    ensures Concurrency(None) == 15
  {
    SwarmDefaultLetters();
    NeitherFlashNorPro(SwarmDefaultModel);
  }

  /** One line of dlq_failed_chunks.jsonl. */
  datatype DlqLine = DlqLine(chunkIndex: int, reason: string, content: string)

  /** What graph.ainvoke gave back: the final state's two text keys, or the
      message of the exception it raised. */
  datatype GraphResult =
    | Completed(expandedChunk: string, currentChunk: string)
    | Crashed(message: string)

  /** `result.get("expanded_chunk") or result.get("current_chunk") or chunk` */
  function Selected(result: GraphResult, chunk: string): string
    requires result.Completed?
  {
    if result.expandedChunk != "" then result.expandedChunk
    else if result.currentChunk != "" then result.currentChunk
    else chunk
  }

  /** process_chunk's handling of a non-blank chunk's graph result: the
      expansion (or the original chunk as fallback) and the dead-letter line
      written, if any. */
  function ClassifyOutcome(i: nat, chunk: string, result: GraphResult): (r: (string, Option<DlqLine>))
    ensures r.0 == chunk || (!IsBlank(r.0) && r.1 == None)
    ensures r.1 == None <==> result.Completed? && r.0 != chunk
    ensures r.1.Some? ==> r.0 == chunk && r.1.value.chunkIndex == i + 1 && r.1.value.content == chunk
    ensures result.Crashed? ==> r.1 == Some(DlqLine(i + 1, result.message, chunk))
    ensures result.Completed? ==>
      (IsBlank(Selected(result, chunk)) <==> r.1.Some? && r.1.value.reason == "empty_expansion")
    ensures result.Completed? ==>
      (!IsBlank(Selected(result, chunk)) && Selected(result, chunk) == chunk <==>
       r.1.Some? && r.1.value.reason == "unchanged_expansion")
    ensures result.Completed? && r.1.None? ==> r.0 == Selected(result, chunk)
  {
    match result
    case Crashed(message) => (chunk, Some(DlqLine(i + 1, message, chunk)))
    case Completed(e, c) =>
      var expanded := Selected(result, chunk);
      if IsBlank(expanded) then (chunk, Some(DlqLine(i + 1, "empty_expansion", chunk)))
      else if expanded == chunk then (chunk, Some(DlqLine(i + 1, "unchanged_expansion", chunk)))
      else (expanded, None)
  }

  /** A graph run that hands back the chunk itself is logged as unchanged. */
  lemma UnchangedIsLogged(i: nat, chunk: string)
    requires !IsBlank(chunk)
    ensures ClassifyOutcome(i, chunk, Completed(chunk, chunk)) == (chunk, Some(DlqLine(i + 1, "unchanged_expansion", chunk)))
  {
  }

  const ChunkSeparator: string := "\n\n---\n\n"

  /** The output directory as the Phase-2 swarm sees it. */
  class Workspace {
    var chunkFiles: map<nat, string>   // expanded_chunks/chunk_{i:04d}.md
    var dlq: seq<DlqLine>              // dlq_failed_chunks.jsonl
    var graphRuns: nat                 // graph invocations so far

    constructor(files: map<nat, string>)
      ensures chunkFiles == files && dlq == [] && graphRuns == 0
    {
      chunkFiles := files;
      dlq := [];
      graphRuns := 0;
    }

    /** process_chunk.  An existing checkpoint file is returned verbatim with
        no graph call.  Otherwise a blank chunk is kept, and a non-blank one
        goes through the graph; the result is classified and written to the
        chunk's file.  Because the graph hands back the chunk unchanged, every
        non-blank chunk is logged as an unchanged expansion. */
    method ProcessChunk(i: nat, chunk: string, total: nat, targetPages: int, env: Env,
                        drafterService: nat -> nat -> Attempt, criticService: nat -> nat -> Attempt)
      returns (expanded: string)
      requires i < total
      modifies this
      ensures i in old(chunkFiles) ==>
        expanded == old(chunkFiles)[i] && chunkFiles == old(chunkFiles) &&
        dlq == old(dlq) && graphRuns == old(graphRuns)
      ensures i !in old(chunkFiles) ==> expanded == chunk && chunkFiles == old(chunkFiles)[i := chunk]
      ensures i !in old(chunkFiles) && IsBlank(chunk) ==> dlq == old(dlq) && graphRuns == old(graphRuns)
      ensures i !in old(chunkFiles) && !IsBlank(chunk) ==>
        dlq == old(dlq) + [DlqLine(i + 1, "unchanged_expansion", chunk)] && graphRuns == old(graphRuns) + 1
    {
      if i in chunkFiles {
        return chunkFiles[i];
      }
      if IsBlank(chunk) {
        expanded := chunk;
      } else {
        var target := TargetChars(targetPages, total, |chunk|);
        var initial := BookState(chunk, "", "", "", 0, target);
        var final, drafts, calls := RunGraph(initial, env, drafterService, criticService);
        graphRuns := graphRuns + 1;
        var outcome := ClassifyOutcome(i, chunk, Completed(final.expandedChunk, final.currentChunk));
        expanded := outcome.0;
        if outcome.1.Some? {
          dlq := dlq + [outcome.1.value];
        }
      }
      chunkFiles := chunkFiles[i := expanded];
    }

    /** run_phase_2 and the merge after it: every chunk in index order, the
        results joined with the separator and stripped.  Chunks with a file
        already are reused; the others end up with a file holding the chunk.
        A second run over the same chunks makes no graph call and rebuilds
        the same text. */
    method RunPhase2(chunks: seq<string>, targetPages: int, env: Env,
                     drafterService: nat -> nat -> nat -> Attempt, criticService: nat -> nat -> nat -> Attempt)
      returns (full: string, results: seq<string>)
      modifies this
      ensures |results| == |chunks|
      ensures forall i :: 0 <= i < |chunks| ==>
        results[i] == (if i in old(chunkFiles) then old(chunkFiles)[i] else chunks[i])
      ensures forall j :: j in chunkFiles <==> j in old(chunkFiles) || 0 <= j < |chunks|
      ensures forall j :: j in old(chunkFiles) ==> chunkFiles[j] == old(chunkFiles)[j]
      ensures forall j :: 0 <= j < |chunks| ==> chunkFiles[j] == results[j]
      ensures full == Strip(Join(ChunkSeparator, results))
      ensures (forall i :: 0 <= i < |chunks| ==> i in old(chunkFiles)) ==>
        graphRuns == old(graphRuns) && dlq == old(dlq)
      ensures graphRuns <= old(graphRuns) + |chunks|
    {
      results := [];
      var i := 0;
      while i < |chunks|
        invariant 0 <= i <= |chunks| && |results| == i
        invariant forall j :: 0 <= j < i ==>
          results[j] == (if j in old(chunkFiles) then old(chunkFiles)[j] else chunks[j])
        invariant forall j :: j in chunkFiles <==> j in old(chunkFiles) || 0 <= j < i
        invariant forall j :: j in old(chunkFiles) ==> chunkFiles[j] == old(chunkFiles)[j]
        invariant forall j :: 0 <= j < i ==> chunkFiles[j] == results[j]
        invariant graphRuns <= old(graphRuns) + i
        invariant (forall j :: 0 <= j < |chunks| ==> j in old(chunkFiles)) ==>
          graphRuns == old(graphRuns) && dlq == old(dlq)
      {
        var expanded := ProcessChunk(i, chunks[i], |chunks|, targetPages, env, drafterService(i), criticService(i));
        results := results + [expanded];
        i := i + 1;
      }
      full := Strip(Join(ChunkSeparator, results));
    }
  }

  // ---- Phase 4: structuring merge ----

  /** book_structure.json as the resume check finds it. */
  datatype StructureFile =
    | NoStructure                         // no file: `existing_sections` is never bound
    | Unreadable                          // the load raised: never bound either
    | Structure(sections: seq<Value>)     // bound, possibly to []

  function StartSection(f: StructureFile): nat
  {
    if f.Structure? && f.sections != [] then |f.sections| else 0
  }

  /** str(NameError) for reading the unbound closure variable `existing_sections`
      (the wording of CPython 3.11 and later). */
  const UnboundExistingMessage: string :=
    "cannot access free variable 'existing_sections' where it is not associated with a value in enclosing scope"

  const FallbackTextLimit: nat := 2000
  const FailureNoteLimit: nat := 100
  const CheckpointEvery: nat := 50

  /** The fallback node for a chunk whose structuring failed. */
  function FallbackNode(chunk: string, message: string): (r: Value)
    ensures r.Object? && Get(r.fields, "type") == Some(Str("chapter"))
    ensures Get(r.fields, "_failed") == Some(Str(Prefix(message, FailureNoteLimit)))
    ensures |Prefix(message, FailureNoteLimit)| <= FailureNoteLimit
    ensures Get(r.fields, "sections") ==
      Some(List([Object([("type", Str("paragraph")), ("text", Str(Prefix(chunk, FallbackTextLimit)))])]))
    ensures |Prefix(chunk, FallbackTextLimit)| <= FallbackTextLimit
    ensures |chunk| <= FallbackTextLimit ==> Prefix(chunk, FallbackTextLimit) == chunk
  {
    var paragraph := Object([("type", Str("paragraph")), ("text", Str(Prefix(chunk, FallbackTextLimit)))]);
    var fields := [("type", Str("chapter")), ("sections", List([paragraph])),
                   ("_failed", Str(Prefix(message, FailureNoteLimit)))];
    assert fields[0].0 != "_failed" && fields[1].0 != "_failed";
    assert fields[0].0 != "sections";
    GetIndex(fields, 0);
    GetIndex(fields, 1);
    GetIndex(fields, 2);
    Object(fields)
  }

  /** What the structurer's return value leads to before any checkpoint. */
  datatype StructStep =
    | Node(node: Value)       // a section to store
    | RateLimited             // `return i, None`: nothing stored
    | Raise(message: string)  // an exception caught by the fallback handler

  function TypeName(v: Value): string
  {
    match v
    case Null => "NoneType"
    case Bool(_) => "bool"
    case Int(_) => "int"
    case Float(_) => "float"
    case Str(_) => "str"
    case List(_) => "list"
    case Object(_) => "dict"
  }

  predicate IsRateLimit(message: string)
  {
    Contains(Lower(message), "rate limit") || Contains(message, "429")
  }

  /** The classification at the top of _async_process_chunk. */
  function StructurerStep(data: Value): (r: StructStep)
    ensures data.List? ==> r == Node(Object([("type", Str("chapter")), ("sections", data)]))
    ensures data.Object? && Get(data.fields, "error").None? ==> r == Node(data)
    ensures data.Object? && Get(data.fields, "error").Some? && Get(data.fields, "error").value.Str? ==>
      (r == RateLimited <==> IsRateLimit(Get(data.fields, "error").value.s))
    ensures r.Node? ==> data.List? || (data.Object? && Get(data.fields, "error").None?)
    ensures r == RateLimited ==> data.Object? && Get(data.fields, "error").Some?
  {
    match data
    case List(_) => Node(Object([("type", Str("chapter")), ("sections", data)]))
    case Object(fields) =>
      (match Get(fields, "error")
       case None => Node(data)
       case Some(Str(m)) => if IsRateLimit(m) then RateLimited else Raise("Structurer Error: " + m)
       case Some(other) => Raise("'" + TypeName(other) + "' object has no attribute 'lower'"))
    case _ => Raise("Unexpected structurer return type: <class '" + TypeName(data) + "'>")
  }

  /** The Phase-4 structuring pass over chunks[start..] in index order, then
      the merge: the existing sections (when resuming from them) followed by
      the stored results sorted by index.  A rate-limited chunk leaves no
      section; any other error leaves a fallback node.  A completion that
      falls on a checkpoint (every 50th, or the last of the run) reads
      `existing_sections`; when no structure file was loaded that name is
      unbound, and the chunk becomes a fallback node even though it was
      structured. */
  method StructurePhase(chunks: seq<string>, existing: StructureFile, structurer: nat -> Value)
    returns (sections: seq<Value>, results: seq<Value>, stored: seq<nat>, lastCheckpoint: Option<seq<Value>>)
    ensures sections == (if StartSection(existing) > 0 then existing.sections else []) + results
    ensures |results| == |stored|
    ensures forall k :: 0 <= k < |stored| ==> StartSection(existing) <= stored[k] < |chunks|
    ensures forall k, l :: 0 <= k < l < |stored| ==> stored[k] < stored[l]
    ensures forall i :: StartSection(existing) <= i < |chunks| ==>
      (i in stored <==> StructurerStep(structurer(i)) != RateLimited)
    ensures forall k :: 0 <= k < |stored| ==> ResultFor(chunks[stored[k]], structurer(stored[k]), results[k])
    ensures lastCheckpoint.Some? ==>
      (existing.Structure? &&
       |existing.sections| <= |lastCheckpoint.value| && lastCheckpoint.value[..|existing.sections|] == existing.sections)
    ensures !existing.Structure? && StartSection(existing) < |chunks| &&
            (forall i :: 0 <= i < |chunks| ==> StructurerStep(structurer(i)).Node?) ==>
      |results| > 0 && results[|results| - 1] == FallbackNode(chunks[|chunks| - 1], UnboundExistingMessage)
  {
    var start := StartSection(existing);
    var remaining := if start < |chunks| then |chunks| - start else 0;
    results := [];
    stored := [];
    lastCheckpoint := None;
    var completed: nat := 0;
    var i := start;
    while i < |chunks|
      invariant start <= i <= |chunks| || (i == start && start >= |chunks|)
      invariant PhaseSoFar(chunks, existing, structurer, i, results, stored, completed, lastCheckpoint)
    {
      results, stored, completed, lastCheckpoint :=
        StructureNext(chunks, existing, structurer, i, results, stored, completed, lastCheckpoint);
      i := i + 1;
    }
    sections := (if start > 0 then existing.sections else []) + results;
  }

  /** What the pass has established after chunks[StartSection(existing)..i]. */
  ghost predicate PhaseSoFar(chunks: seq<string>, existing: StructureFile, structurer: nat -> Value, i: nat,
                             ordered: seq<Value>, stored: seq<nat>, completed: nat, lastCheckpoint: Option<seq<Value>>)
  {
    var start := StartSection(existing);
    StoredIndices(start, i, stored, structurer) &&
    StoredResults(chunks, structurer, ordered, stored) &&
    Completions(start, i, completed, structurer) &&
    CheckpointKeepsExisting(existing, lastCheckpoint) &&
    LastIsFallback(chunks, existing, structurer, i, ordered)
  }

  /** The stored indices, in increasing order, are those of chunks[start..i]
      that were not rate limited. */
  ghost predicate StoredIndices(start: nat, i: nat, stored: seq<nat>, structurer: nat -> Value)
  {
    (forall k :: 0 <= k < |stored| ==> start <= stored[k] < i) &&
    (forall k, l :: 0 <= k < l < |stored| ==> stored[k] < stored[l]) &&
    (forall j :: start <= j < i ==> (j in stored <==> StructurerStep(structurer(j)) != RateLimited))
  }

  ghost predicate StoredResults(chunks: seq<string>, structurer: nat -> Value, ordered: seq<Value>, stored: seq<nat>)
  {
    |ordered| == |stored| &&
    forall k :: 0 <= k < |stored| ==>
      (stored[k] < |chunks| && ResultFor(chunks[stored[k]], structurer(stored[k]), ordered[k]))
  }

  ghost predicate Completions(start: nat, i: nat, completed: nat, structurer: nat -> Value)
  {
    completed <= i - start &&
    ((forall j :: start <= j < i ==> StructurerStep(structurer(j)).Node?) ==> completed == i - start)
  }

  predicate CheckpointKeepsExisting(existing: StructureFile, lastCheckpoint: Option<seq<Value>>)
  {
    lastCheckpoint.Some? ==>
      (existing.Structure? &&
       |existing.sections| <= |lastCheckpoint.value| && lastCheckpoint.value[..|existing.sections|] == existing.sections)
  }

  /** Without a structure file, a run whose every reply was a node ends on a fallback. */
  ghost predicate LastIsFallback(chunks: seq<string>, existing: StructureFile, structurer: nat -> Value, i: nat,
                                 ordered: seq<Value>)
  {
    var start := StartSection(existing);
    !existing.Structure? && start < i <= |chunks| && i == |chunks| &&
    (forall j :: start <= j < i ==> StructurerStep(structurer(j)).Node?) ==>
      |ordered| > 0 && ordered[|ordered| - 1] == FallbackNode(chunks[i - 1], UnboundExistingMessage)
  }

  lemma StoredIndicesStep(start: nat, i: nat, stored: seq<nat>, structurer: nat -> Value, kept: bool)
    requires start <= i && StoredIndices(start, i, stored, structurer)
    requires kept <==> StructurerStep(structurer(i)) != RateLimited
    ensures StoredIndices(start, i + 1, if kept then stored + [i] else stored, structurer)
  {
    var stored' := if kept then stored + [i] else stored;
    forall j | start <= j < i + 1
      ensures j in stored' <==> StructurerStep(structurer(j)) != RateLimited
    {
      if j == i {
        assert i !in stored;
        if kept { assert stored'[|stored|] == i; }
      } else {
        assert j in stored' <==> j in stored;
      }
    }
  }

  lemma StoredResultsStep(chunks: seq<string>, structurer: nat -> Value, ordered: seq<Value>, stored: seq<nat>,
                          i: nat, node: Option<Value>)
    requires StoredResults(chunks, structurer, ordered, stored) && i < |chunks|
    requires node.Some? ==> ResultFor(chunks[i], structurer(i), node.value)
    ensures StoredResults(chunks, structurer, if node.Some? then ordered + [node.value] else ordered,
                          if node.Some? then stored + [i] else stored)
  {
  }

  /** The pass over chunk i. */
  method StructureNext(chunks: seq<string>, existing: StructureFile, structurer: nat -> Value, i: nat,
                       ordered: seq<Value>, stored: seq<nat>, completed: nat, lastCheckpoint: Option<seq<Value>>)
    returns (ordered': seq<Value>, stored': seq<nat>, completed': nat, lastCheckpoint': Option<seq<Value>>)
    requires StartSection(existing) <= i < |chunks|
    requires PhaseSoFar(chunks, existing, structurer, i, ordered, stored, completed, lastCheckpoint)
    ensures PhaseSoFar(chunks, existing, structurer, i + 1, ordered', stored', completed', lastCheckpoint')
  {
    var start := StartSection(existing);
    var remaining := |chunks| - start;
    var node;
    node, completed', lastCheckpoint' :=
      StructureOne(chunks[i], structurer(i), completed, remaining, existing, ordered, lastCheckpoint);
    StoredIndicesStep(start, i, stored, structurer, node.Some?);
    StoredResultsStep(chunks, structurer, ordered, stored, i, node);
    CompletionsStep(start, i, completed, completed', structurer);
    CheckpointStep(existing, lastCheckpoint, lastCheckpoint', ordered, structurer(i));
    if node.Some? {
      ordered' := ordered + [node.value];
      stored' := stored + [i];
    } else {
      ordered' := ordered;
      stored' := stored;
    }
    LastFallbackStep(chunks, existing, structurer, i, ordered, completed, node, ordered');
  }

  lemma CompletionsStep(start: nat, i: nat, completed: nat, completed': nat, structurer: nat -> Value)
    requires start <= i && Completions(start, i, completed, structurer)
    requires StructurerStep(structurer(i)).Node? ==> completed' == completed + 1
    requires !StructurerStep(structurer(i)).Node? ==> completed' == completed
    ensures Completions(start, i + 1, completed', structurer)
  {
  }

  lemma CheckpointStep(existing: StructureFile, checkpoint: Option<seq<Value>>, checkpoint': Option<seq<Value>>,
                       ordered: seq<Value>, data: Value)
    requires CheckpointKeepsExisting(existing, checkpoint)
    requires checkpoint'.Some? ==>
      existing.Structure? &&
      (checkpoint' == checkpoint ||
       (StructurerStep(data).Node? && checkpoint'.value == existing.sections + ordered + [StructurerStep(data).node]))
    ensures CheckpointKeepsExisting(existing, checkpoint')
  {
    if checkpoint'.Some? && checkpoint' != checkpoint {
      assert checkpoint'.value[..|existing.sections|] == existing.sections;
    }
  }

  lemma LastFallbackStep(chunks: seq<string>, existing: StructureFile, structurer: nat -> Value, i: nat,
                         ordered: seq<Value>, completed: nat, node: Option<Value>, ordered': seq<Value>)
    requires StartSection(existing) <= i < |chunks|
    requires Completions(StartSection(existing), i, completed, structurer)
    requires node.None? <==> StructurerStep(structurer(i)) == RateLimited
    requires StructurerStep(structurer(i)).Node? && !existing.Structure? &&
             completed + 1 == |chunks| - StartSection(existing) ==>
      node == Some(FallbackNode(chunks[i], UnboundExistingMessage))
    requires ordered' == if node.Some? then ordered + [node.value] else ordered
    ensures LastIsFallback(chunks, existing, structurer, i + 1, ordered')
  {
  }

  /** The completion count at which a checkpoint is written: every 50th
      completion, and the one that finishes the run. */
  predicate CheckpointDue(completed: nat, remaining: nat)
  {
    completed % CheckpointEvery == 0 || completed == remaining
  }

  /** A stored section is the structurer's node, or a fallback for its chunk;
      an error reply always gives the fallback with that error's message. */
  ghost predicate ResultFor(chunk: string, data: Value, node: Value)
  {
    ((StructurerStep(data).Node? && node == StructurerStep(data).node) ||
     (exists m :: node == FallbackNode(chunk, m))) &&
    (StructurerStep(data).Raise? ==> node == FallbackNode(chunk, StructurerStep(data).message)) &&
    StructurerStep(data) != RateLimited
  }

  /** One _async_process_chunk: classify the structurer's reply, count the
      completion, checkpoint when due, and fall back on any exception. */
  method StructureOne(chunk: string, data: Value, completed: nat, remaining: nat, existing: StructureFile,
                      ordered: seq<Value>, checkpoint: Option<seq<Value>>)
    returns (node: Option<Value>, completed': nat, checkpoint': Option<seq<Value>>)
    requires checkpoint.Some? ==> existing.Structure?
    ensures node.None? <==> StructurerStep(data) == RateLimited
    ensures node.Some? ==> ResultFor(chunk, data, node.value)
    ensures StructurerStep(data).Node? ==> completed' == completed + 1
    ensures !StructurerStep(data).Node? ==> completed' == completed
    ensures StructurerStep(data).Raise? ==> node == Some(FallbackNode(chunk, StructurerStep(data).message))
    ensures StructurerStep(data).Node? ==>
      node == Some(StructurerStep(data).node) || node == Some(FallbackNode(chunk, UnboundExistingMessage))
    ensures StructurerStep(data).Node? && !existing.Structure? && completed + 1 == remaining ==>
      node == Some(FallbackNode(chunk, UnboundExistingMessage))
    ensures checkpoint'.Some? ==>
      existing.Structure? &&
      (checkpoint' == checkpoint ||
       (StructurerStep(data).Node? && checkpoint'.value == existing.sections + ordered + [StructurerStep(data).node]))
    ensures StructurerStep(data).Node? ==>
      node == (if CheckpointDue(completed', remaining) && !existing.Structure?
               then Some(FallbackNode(chunk, UnboundExistingMessage))
               else Some(StructurerStep(data).node))
    ensures checkpoint' == (if StructurerStep(data).Node? && CheckpointDue(completed', remaining) && existing.Structure?
                            then Some(existing.sections + ordered + [StructurerStep(data).node])
                            else checkpoint)
  {
    checkpoint' := checkpoint;
    completed' := completed;
    match StructurerStep(data)
    case RateLimited =>
      node := None;
    case Raise(message) =>
      node := Some(FallbackNode(chunk, message));
    case Node(v) =>
      completed' := completed + 1;
      if CheckpointDue(completed', remaining) {
        if existing.Structure? {
          checkpoint' := Some(existing.sections + ordered + [v]);
          node := Some(v);
        } else {
          node := Some(FallbackNode(chunk, UnboundExistingMessage));
        }
      } else {
        node := Some(v);
      }
  }

  // ---- Phase 4: diagram resolution ----

  const NewDiagramOpen: string := "[NEW_DIAGRAM:"

  /** re.sub(r"\[NEW_DIAGRAM:[^\]]*\]", "", s): every complete tag, scanned
      left to right, is removed; an unterminated one is kept. */
  function StripDiagramTags(s: string): (r: string)
    ensures |r| <= |s|
    decreases |s|
  {
    if s == [] then ""
    else if StartsWith(s, NewDiagramOpen) && ']' in s[|NewDiagramOpen|..] then
      StripDiagramTags(s[TagEnd(s, |NewDiagramOpen|) + 1..])
    else [s[0]] + StripDiagramTags(s[1..])
  }

  /** The index of the first ']' at or after `from`. */
  function TagEnd(s: string, from: nat): (k: nat)
    requires from <= |s| && ']' in s[from..]
    ensures from <= k < |s| && s[k] == ']' && ']' !in s[from..k]
    decreases |s| - from
  {
    if s[from] == ']' then from else TagEnd(s, from + 1)
  }

  /** Text without a tag opening is left alone. */
  lemma {:induction false} StripDiagramTagsAbsent(s: string)
    requires !Contains(s, NewDiagramOpen)
    ensures StripDiagramTags(s) == s
    decreases |s|
  {
    if s != [] {
      assert !StartsWith(s, NewDiagramOpen);
      StripDiagramTagsAbsent(s[1..]);
    }
  }

  /** process_node's counter: `_diagram_count[0]` and MAX_NEW_DIAGRAMS. */
  class DiagramBudget {
    var count: nat
    const cap: int

    constructor(cap: int)
      ensures count == 0 && this.cap == cap
    {
      count := 0;
      this.cap := cap;
    }

    /** The text step for a node with a string "text": resolve original
        assets, then either strip new-diagram tags (budget spent) or resolve
        them, counting the call only when the text changed. */
    method ResolveText(text: string, resolveOriginal: string -> string, resolveArt: string -> string)
      returns (result: string)
      modifies this
      ensures (result, count) == ResolvedText(text, old(count), cap, resolveOriginal, resolveArt)
      ensures count == old(count) || (old(count) < cap && count == old(count) + 1)
      ensures var a := AfterOriginal(text, resolveOriginal);
        count == old(count) + 1 <==> old(count) < cap && Contains(a, "NEW_DIAGRAM") && resolveArt(a) != a
      ensures var a := AfterOriginal(text, resolveOriginal);
        !Contains(a, "NEW_DIAGRAM") ==> result == a && count == old(count)
      ensures var a := AfterOriginal(text, resolveOriginal);
        old(count) < cap && Contains(a, "NEW_DIAGRAM") ==> result == resolveArt(a)
      ensures var a := AfterOriginal(text, resolveOriginal);
        old(count) >= cap && Contains(a, "NEW_DIAGRAM") ==> result == Strip(StripDiagramTags(a)) && count == old(count)
    {
      var original := text;
      result := text;
      if Contains(original, "ORIGINAL_ASSET") {
        var newText := resolveOriginal(original);
        if newText != original {
          original := newText;
          result := newText;
        }
      }
      if Contains(original, "NEW_DIAGRAM") {
        if count >= cap {
          result := Strip(StripDiagramTags(original));
        } else {
          var newText := resolveArt(original);
          if newText != original {
            result := newText;
            count := count + 1;
          }
        }
      }
    }

    /** process_node over a JSON tree: a dict's string "text" first, then
        every value; a list's items in order.  The counter only grows, and
        never past the cap once it started at or below it. */
    method ProcessNode(node: Value, resolveOriginal: string -> string, resolveArt: string -> string)
      returns (r: Value)
      modifies this
      ensures (r, count) == ResolveValue(node, old(count), cap, resolveOriginal, resolveArt)
      ensures old(count) <= count
      ensures old(count) <= cap ==> count <= cap
      ensures old(count) > cap ==> count == old(count)
      ensures !node.List? && !node.Object? ==> r == node && count == old(count)
      ensures node.List? ==> r.List? && |r.items| == |node.items|
      ensures node.Object? ==> r.Object? && |r.fields| == |node.fields|
      decreases node, 1
    {
      match node
      case List(items) =>
        var out := ProcessItems(items, resolveOriginal, resolveArt);
        r := List(out);
      case Object(fields) =>
        var text := Get(fields, "text");
        var newText: Option<string> := None;
        if text.Some? && text.value.Str? {
          var t := ResolveText(text.value.s, resolveOriginal, resolveArt);
          newText := Some(t);
        }
        var out := ProcessFields(node, resolveOriginal, resolveArt);
        if newText.Some? {
          GetSameKeys(out, fields, "text");
          SetKeepsLength(out, "text", Str(newText.value));
          out := Set(out, "text", Str(newText.value));
        }
        r := Object(out);
      case _ =>
        r := node;
    }

    method ProcessItems(items: seq<Value>, resolveOriginal: string -> string, resolveArt: string -> string)
      returns (out: seq<Value>)
      modifies this
      ensures old(count) <= count
      ensures old(count) <= cap ==> count <= cap
      ensures old(count) > cap ==> count == old(count)
      ensures |out| == |items|
      ensures (out, count) == ResolveItems(items, old(count), cap, resolveOriginal, resolveArt)
      decreases items, 0
    {
      out := [];
      var k := 0;
      while k < |items|
        invariant 0 <= k <= |items| && |out| == k
        invariant old(count) <= count
        invariant old(count) <= cap ==> count <= cap
        invariant old(count) > cap ==> count == old(count)
        invariant (out, count) == ResolveItems(items[..k], old(count), cap, resolveOriginal, resolveArt)
      {
        assert items[..k + 1][..k] == items[..k];
        var v := ProcessNode(items[k], resolveOriginal, resolveArt);
        out := out + [v];
        k := k + 1;
      }
      assert items[..k] == items;
    }

    method ProcessFields(node: Value, resolveOriginal: string -> string, resolveArt: string -> string)
      returns (out: seq<(string, Value)>)
      requires node.Object?
      modifies this
      ensures old(count) <= count
      ensures old(count) <= cap ==> count <= cap
      ensures old(count) > cap ==> count == old(count)
      ensures |out| == |node.fields|
      ensures forall k :: 0 <= k < |node.fields| ==> out[k].0 == node.fields[k].0
      ensures (out, count) == ResolveFields(node, |node.fields|, old(count), cap, resolveOriginal, resolveArt)
      decreases node, 0
    {
      var fields := node.fields;
      out := [];
      var k := 0;
      while k < |fields|
        invariant 0 <= k <= |fields| && |out| == k
        invariant forall j :: 0 <= j < k ==> out[j].0 == fields[j].0
        invariant old(count) <= count
        invariant old(count) <= cap ==> count <= cap
        invariant old(count) > cap ==> count == old(count)
        invariant (out, count) == ResolveFields(node, k, old(count), cap, resolveOriginal, resolveArt)
      {
        var v := ProcessNode(fields[k].1, resolveOriginal, resolveArt);
        out := out + [(fields[k].0, v)];
        k := k + 1;
      }
    }
  }

  /** The text after step 1 of process_node: original assets resolved when
      the tag occurs. */
  function AfterOriginal(text: string, resolveOriginal: string -> string): string
  {
    if Contains(text, "ORIGINAL_ASSET") then resolveOriginal(text) else text
  }

  /** The text step as a value: the new text and the new diagram count. */
  function ResolvedText(text: string, count: nat, cap: int, resolveOriginal: string -> string,
                        resolveArt: string -> string): (string, nat)
  {
    var a := AfterOriginal(text, resolveOriginal);
    if !Contains(a, "NEW_DIAGRAM") then (a, count)
    else if count >= cap then (Strip(StripDiagramTags(a)), count)
    else if resolveArt(a) != a then (resolveArt(a), count + 1)
    else (a, count)
  }

  /** process_node as a value: the resolved tree and the diagram count after
      it, visiting a dict's own "text" before its values, and a list's items
      in order. */
  function ResolveValue(node: Value, count: nat, cap: int, resolveOriginal: string -> string,
                        resolveArt: string -> string): (Value, nat)
    decreases node, 1
  {
    match node
    case List(items) =>
      var (out, c) := ResolveItems(items, count, cap, resolveOriginal, resolveArt);
      (List(out), c)
    case Object(fields) =>
      var text := Get(fields, "text");
      if text.Some? && text.value.Str? then
        var (t, c1) := ResolvedText(text.value.s, count, cap, resolveOriginal, resolveArt);
        var (out, c2) := ResolveFields(node, |fields|, c1, cap, resolveOriginal, resolveArt);
        (Object(Set(out, "text", Str(t))), c2)
      else
        var (out, c) := ResolveFields(node, |fields|, count, cap, resolveOriginal, resolveArt);
        (Object(out), c)
    case _ => (node, count)
  }

  function ResolveItems(items: seq<Value>, count: nat, cap: int, resolveOriginal: string -> string,
                        resolveArt: string -> string): (seq<Value>, nat)
    decreases items, 0
  {
    if items == [] then ([], count)
    else
      var (out, c1) := ResolveItems(items[..|items| - 1], count, cap, resolveOriginal, resolveArt);
      var (v, c2) := ResolveValue(items[|items| - 1], c1, cap, resolveOriginal, resolveArt);
      (out + [v], c2)
  }

  /** The first n fields of a dict, each value resolved in turn. */
  function ResolveFields(node: Value, n: nat, count: nat, cap: int, resolveOriginal: string -> string,
                         resolveArt: string -> string): (seq<(string, Value)>, nat)
    requires node.Object? && n <= |node.fields|
    decreases node, 0, n
  {
    if n == 0 then ([], count)
    else
      var (out, c1) := ResolveFields(node, n - 1, count, cap, resolveOriginal, resolveArt);
      var (v, c2) := ResolveValue(node.fields[n - 1].1, c1, cap, resolveOriginal, resolveArt);
      (out + [(node.fields[n - 1].0, v)], c2)
  }

  /** MAX_NEW_DIAGRAMS holds over a whole tree: the count never goes down,
      never passes the cap when it starts within it, and does not move at all
      once the budget is spent. */
  lemma {:induction false} BudgetValue(node: Value, c: nat, cap: int, resolveOriginal: string -> string,
                                       resolveArt: string -> string)
    ensures var c' := ResolveValue(node, c, cap, resolveOriginal, resolveArt).1;
      c <= c' && (c <= cap ==> c' <= cap) && (c >= cap ==> c' == c)
    decreases node, 1
  {
    match node
    case List(items) =>
      BudgetItems(items, c, cap, resolveOriginal, resolveArt);
    case Object(fields) =>
      var text := Get(fields, "text");
      if text.Some? && text.value.Str? {
        var (t, c1) := ResolvedText(text.value.s, c, cap, resolveOriginal, resolveArt);
        BudgetFields(node, |fields|, c1, cap, resolveOriginal, resolveArt);
      } else {
        BudgetFields(node, |fields|, c, cap, resolveOriginal, resolveArt);
      }
    case _ =>
  }

  lemma {:induction false} BudgetItems(items: seq<Value>, c: nat, cap: int, resolveOriginal: string -> string,
                                       resolveArt: string -> string)
    ensures var c' := ResolveItems(items, c, cap, resolveOriginal, resolveArt).1;
      c <= c' && (c <= cap ==> c' <= cap) && (c >= cap ==> c' == c)
    decreases items, 0
  {
    if items != [] {
      var (out, c1) := ResolveItems(items[..|items| - 1], c, cap, resolveOriginal, resolveArt);
      BudgetItems(items[..|items| - 1], c, cap, resolveOriginal, resolveArt);
      BudgetValue(items[|items| - 1], c1, cap, resolveOriginal, resolveArt);
    }
  }

  lemma {:induction false} BudgetFields(node: Value, n: nat, c: nat, cap: int, resolveOriginal: string -> string,
                                        resolveArt: string -> string)
    requires node.Object? && n <= |node.fields|
    ensures var c' := ResolveFields(node, n, c, cap, resolveOriginal, resolveArt).1;
      c <= c' && (c <= cap ==> c' <= cap) && (c >= cap ==> c' == c)
    decreases node, 0, n
  {
    if n > 0 {
      var (out, c1) := ResolveFields(node, n - 1, c, cap, resolveOriginal, resolveArt);
      BudgetFields(node, n - 1, c, cap, resolveOriginal, resolveArt);
      BudgetValue(node.fields[n - 1].1, c1, cap, resolveOriginal, resolveArt);
    }
  }

  lemma SetKeepsLength(o: Obj, key: string, v: Value)
    requires Get(o, key).Some?
    ensures |Set(o, key, v)| == |o|
  {
    if o != [] && o[0].0 != key {
      SetKeepsLength(o[1..], key, v);
    }
  }
}
