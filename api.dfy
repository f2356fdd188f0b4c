// The server's own logic around the job store: restart recovery, log
// pagination, the progress payload, the submit endpoint's checks, and the
// pipeline runner's command line, log-line classification and exit handling.
// HTTP transport, the child process and its thread are not modelled: the
// child's output is a list of lines and its exit code a parameter.
module Api {
  import opened TextUtil
  import opened JsonValue
  import opened Jobs

  const RestartMessage: string := "Job interrupted by server restart. You can resume."
  const OutputDir: string := "data/output"

  // ───────────── startup recovery ─────────────

  /** The keywords startup passes to update for a job caught mid-run. */
  function RecoveryChanges(j: Job): seq<Change>
  {
    [SetStatus("failed"), SetMessage(RestartMessage), SetRecoverable(true), SetResumePhase(Some(j.currentPhase))]
  }

  /** A job as startup leaves it. */
  function Recovered(j: Job, now: real): Job
  {
    if j.status == "processing" then ApplyAll(j, RecoveryChanges(j)).(updatedAt := now) else j
  }

  /** A running job becomes a recoverable failure that resumes at its phase;
      every other job is left alone. */
  lemma RecoveredFields(j: Job, now: real)
    ensures j.status == "processing" ==>
      Recovered(j, now) == j.(status := "failed", message := RestartMessage, isRecoverable := true,
                              resumePhase := Some(j.currentPhase), updatedAt := now)
    ensures j.status != "processing" ==> Recovered(j, now) == j
    ensures Recovered(j, now).status != "processing"
  {
    var cs := RecoveryChanges(j);
    ApplyFour(j, cs[0], cs[1], cs[2], cs[3]);
  }

  /** startup_event: every job still "processing" is marked failed through
      update, then the store is written. */
  method StartupRecovery(store: JobStore, now: real)
    requires store.Valid()
    modifies store
    ensures store.Valid() && store.order == old(store.order)
    ensures store.jobs.Keys == old(store.jobs).Keys
    ensures forall id :: id in store.jobs ==> store.jobs[id] == Recovered(old(store.jobs)[id], now)
    ensures store.saved == Some(Snapshot(store.jobs))
  {
    ghost var jobs0 := store.jobs;
    var i := 0;
    while i < |store.order|
      invariant 0 <= i <= |store.order| && store.Valid() && store.order == old(store.order)
      invariant RecoveryProgress(store.jobs, jobs0, store.order, i, now)
    {
      RecoverAt(store, jobs0, i, now);
      i := i + 1;
    }
    assert store.order[..i] == store.order;
    store.Save();
  }

  /** The jobs once startup has gone through the first `i` ids in order. */
  ghost predicate RecoveryProgress(jobs: map<string, Job>, jobs0: map<string, Job>, order: seq<string>, i: nat, now: real)
    requires i <= |order|
  {
    && jobs.Keys == jobs0.Keys
    && forall id :: id in jobs0 ==> jobs[id] == (if id in order[..i] then Recovered(jobs0[id], now) else jobs0[id])
  }

  /** One pass of the startup loop, over the i-th id. */
  method RecoverAt(store: JobStore, ghost jobs0: map<string, Job>, i: nat, now: real)
    requires store.Valid() && i < |store.order| && RecoveryProgress(store.jobs, jobs0, store.order, i, now)
    modifies store
    ensures store.Valid() && store.order == old(store.order)
    ensures RecoveryProgress(store.jobs, jobs0, store.order, i + 1, now)
  {
    var id := store.order[i];
    var job := store.jobs[id];
    RecoveryStep(store.jobs, jobs0, store.order, i, now);
    if job.status == "processing" {
      var _ := store.Update(id, RecoveryChanges(job), now);
    }
  }

  /** Recovering the i-th id extends the progress by one id. */
  lemma RecoveryStep(jobs: map<string, Job>, jobs0: map<string, Job>, order: seq<string>, i: nat, now: real)
    requires i < |order| && order[i] in jobs && RecoveryProgress(jobs, jobs0, order, i, now)
    requires forall a, b :: 0 <= a < b < |order| ==> order[a] != order[b]
    ensures RecoveryProgress(jobs[order[i] := Recovered(jobs[order[i]], now)], jobs0, order, i + 1, now)
  {
    var id := order[i];
    assert id !in order[..i];
    assert order[..i + 1] == order[..i] + [id];
  }

  /** No job is left "processing" after startup. */
  lemma NothingProcessingAfterStartup(jobs: map<string, Job>, now: real)
    ensures forall id :: id in jobs ==> Recovered(jobs[id], now).status != "processing"
  {
    forall id | id in jobs
      ensures Recovered(jobs[id], now).status != "processing"
    {
      RecoveredFields(jobs[id], now);
    }
  }

  // ───────────── replies ─────────────

  datatype Reply<T> = Ok(body: T) | HttpError(code: int, detail: string)

  function NotFound<T>(jobId: string): Reply<T>
  {
    HttpError(404, "Job " + jobId + " not found")
  }

  // ───────────── log pagination ─────────────

  /** The body of get_logs; next_cursor is sent as a string. */
  datatype LogPage = LogPage(jobId: string, logs: seq<LogEntry>, nextCursor: string, total: nat, hasMore: bool)

  /** cursor + len(new_lines) */
  function PageEnd(lines: seq<LogEntry>, cursor: int, limit: int): int
  {
    cursor + |PySlice(lines, cursor, cursor + limit)|
  }

  function GetLogs(jobs: map<string, Job>, jobId: string, cursor: int, limit: int): (r: Reply<LogPage>)
    ensures jobId !in jobs ==> r == NotFound(jobId)
    ensures jobId in jobs ==> (r.Ok? && r.body.total == |jobs[jobId].logLines| &&
      r.body.logs == PySlice(jobs[jobId].logLines, cursor, cursor + limit) &&
      r.body.nextCursor == IntToString(PageEnd(jobs[jobId].logLines, cursor, limit)))
    ensures jobId in jobs ==> (r.Ok? && r.body.jobId == jobId &&
      (r.body.hasMore <==> PageEnd(jobs[jobId].logLines, cursor, limit) < |jobs[jobId].logLines|))
  {
    if jobId !in jobs then NotFound(jobId)
    else
      var all := jobs[jobId].logLines;
      var page := PySlice(all, cursor, cursor + limit);
      Ok(LogPage(jobId, page, IntToString(cursor + |page|), |all|, cursor + |page| < |all|))
  }

  /** From an in-range cursor, a page is the next `limit` lines (fewer at the
      end), the rest follows from next_cursor, and has_more says whether
      anything is left. */
  lemma PageThenRest(lines: seq<LogEntry>, cursor: int, limit: int)
    requires 0 <= cursor <= |lines| && limit >= 0
    ensures var e := PageEnd(lines, cursor, limit);
      cursor <= e <= |lines| && e - cursor == (if cursor + limit < |lines| then limit else |lines| - cursor) &&
      PySlice(lines, cursor, cursor + limit) + lines[e..] == lines[cursor..]
  {
    var e := PageEnd(lines, cursor, limit);
    var page := PySlice(lines, cursor, cursor + limit);
    if cursor + limit < |lines| {
      assert page == lines[cursor..cursor + limit];
    } else if cursor < |lines| {
      assert page == lines[cursor..];
    } else {
      assert page == [];
    }
  }

  /** The pages a client reads by following next_cursor until has_more is false. */
  function Pages(lines: seq<LogEntry>, cursor: nat, limit: nat): (r: seq<seq<LogEntry>>)
    requires cursor <= |lines| && limit >= 1
    decreases |lines| - cursor
  {
    PageThenRest(lines, cursor, limit);
    var e := PageEnd(lines, cursor, limit);
    var page := PySlice(lines, cursor, cursor + limit);
    if e < |lines| then [page] + Pages(lines, e, limit) else [page]
  }

  /** Polling from any in-range cursor with a positive limit delivers every
      later line exactly once and in order. */
  lemma {:induction false} PollingReadsAll(lines: seq<LogEntry>, cursor: nat, limit: nat)
    requires cursor <= |lines| && limit >= 1
    ensures Flatten(Pages(lines, cursor, limit)) == lines[cursor..]
    decreases |lines| - cursor
  {
    PageThenRest(lines, cursor, limit);
    var e := PageEnd(lines, cursor, limit);
    var page := PySlice(lines, cursor, cursor + limit);
    if e < |lines| {
      PollingReadsAll(lines, e, limit);
      assert Pages(lines, cursor, limit) == [page] + Pages(lines, e, limit);
      FlattenCons(page, Pages(lines, e, limit));
    } else {
      assert lines[e..] == [];
      FlattenCons(page, []);
    }
  }

  function Flatten<T>(xs: seq<seq<T>>): seq<T>
  {
    if xs == [] then [] else xs[0] + Flatten(xs[1..])
  }

  lemma FlattenCons<T>(x: seq<T>, xs: seq<seq<T>>)
    ensures Flatten([x] + xs) == x + Flatten(xs)
  {
    assert ([x] + xs)[1..] == xs;
  }

  /** A negative cursor counts from the end.  With at most 49 lines, cursor
      -1 returns the last line and a next_cursor of 0 with has_more set, so a
      client following it starts over; with more than 49 the slice [-1:49]
      is empty and next_cursor stays "-1" with has_more set, so a client
      following it never advances. */
  lemma NegativeCursor(jobs: map<string, Job>, jobId: string)
    requires jobId in jobs && |jobs[jobId].logLines| >= 2
    ensures var r := GetLogs(jobs, jobId, -1, 50);
      r.Ok? && r.body.hasMore &&
      (|jobs[jobId].logLines| <= 49 ==>
        r.body.logs == [jobs[jobId].logLines[|jobs[jobId].logLines| - 1]] && r.body.nextCursor == "0") &&
      (|jobs[jobId].logLines| > 49 ==> r.body.logs == [] && r.body.nextCursor == "-1")
  {
    var all := jobs[jobId].logLines;
    if |all| <= 49 {
      assert PySlice(all, -1, 49) == all[|all| - 1..|all|];
      assert IntToString(0) == "0";
    } else {
      assert PySlice(all, -1, 49) == [];
      assert IntToString(-1) == "-" + NatToString(1) == "-1";
    }
  }

  // ───────────── progress payload ─────────────

  /** labels.get(phase, default) for the payload's phase names. */
  function PhaseLabel(phase: int, default: string): (r: string)
    ensures 1 <= phase <= 4 ==> |r| > 8 && r[..8] == "Phase " + [DigitChar(phase)] + ":"
    ensures !(1 <= phase <= 4) ==> r == default
  {
    if phase == 1 then "Phase 1: Deconstructing"
    else if phase == 2 then "Phase 2: Expanding Content"
    else if phase == 3 then "Phase 3: AI Diagrams"
    else if phase == 4 then "Phase 4: Compiling PDF"
    else default
  }

  datatype ErrorInfo = ErrorInfo(code: string, phaseFailedIn: string, message: string,
                                 isRecoverable: bool, resumePhase: Option<int>)

  /** The progress dict: an "error" entry exists only for a failed job. */
  datatype Payload = Payload(
    jobId: string,
    status: string,
    progressPercentage: real,
    currentPhase: string,
    currentTask: string,
    message: string,
    isRecoverable: bool,
    resumePhase: Option<int>,
    etaPhaseSeconds: Option<int>,
    etaTotalSeconds: Option<int>,
    error: Option<ErrorInfo>)

  /** _job_progress_payload */
  function ProgressPayload(j: Job): (r: Payload)
    ensures r.error.Some? <==> j.status == "failed"
    ensures r.error.Some? ==>
      (r.error.value.code == "SERVER_INTERRUPTED" <==> j.message == RestartMessage) &&
      (r.error.value.code == "JOB_FAILED" <==> j.message != RestartMessage) &&
      r.error.value.phaseFailedIn == PhaseLabel(j.currentPhase, "Pipeline")
    ensures r.currentPhase == PhaseLabel(j.currentPhase, "Initializing")
    ensures r.currentTask == r.message == j.message
  {
    var error := if j.status == "failed" then
        Some(ErrorInfo(if j.message != RestartMessage then "JOB_FAILED" else "SERVER_INTERRUPTED",
                       PhaseLabel(j.currentPhase, "Pipeline"), j.message, j.isRecoverable, j.resumePhase))
      else None;
    Payload(j.jobId, j.status, j.progressPercentage, PhaseLabel(j.currentPhase, "Initializing"), j.message,
            j.message, j.isRecoverable, j.resumePhase, j.etaPhaseSeconds, j.etaTotalSeconds, error)
  }

  /** A job interrupted by a restart reports SERVER_INTERRUPTED, recoverable,
      resuming at the phase it was in. */
  lemma InterruptedPayload(j: Job, now: real)
    requires j.status == "processing"
    ensures var p := ProgressPayload(Recovered(j, now));
      p.error.Some? && p.error.value.code == "SERVER_INTERRUPTED" &&
      p.error.value.isRecoverable && p.error.value.resumePhase == Some(j.currentPhase)
  {
    RecoveredFields(j, now);
  }

  /** get_job */
  function GetJob(jobs: map<string, Job>, jobId: string): (r: Reply<Payload>)
    ensures r.Ok? <==> jobId in jobs
    ensures r.Ok? ==> r.body == ProgressPayload(jobs[jobId]) && r.body.jobId == jobs[jobId].jobId
    ensures !r.Ok? ==> r.code == 404
  {
    if jobId in jobs then Ok(ProgressPayload(jobs[jobId])) else NotFound(jobId)
  }

  // ───────────── submitting a job ─────────────

  /** The form fields of POST /generate. */
  datatype Form = Form(bookSubject: string, bookPersona: string, academicLevel: string, targetPages: int,
                       maxNewDiagrams: int, skipImages: bool, provider: string, ollamaUrl: string)

  function FormConfig(f: Form): Obj
  {
    [("book_subject", Str(f.bookSubject)), ("book_persona", Str(f.bookPersona)),
     ("academic_level", Str(f.academicLevel)), ("target_pages", Int(f.targetPages)),
     ("max_new_diagrams", Int(f.maxNewDiagrams)), ("skip_images", Bool(f.skipImages)),
     ("provider", Str(f.provider)), ("ollama_url", Str(f.ollamaUrl))]
  }

  /** `resume_phase and job_id`: both given and truthy. */
  predicate Resuming(jobId: Option<string>, resumePhase: Option<int>)
  {
    resumePhase.Some? && resumePhase.value != 0 && jobId.Some? && jobId.value != ""
  }

  function ResumeChanges(resumePhase: int): seq<Change>
  {
    [SetStatus("processing"), SetResumePhase(Some(resumePhase)), SetRecoverable(false),
     SetMessage("Resuming from Phase " + IntToString(resumePhase) + "...")]
  }

  /** What the endpoint hands to the pipeline thread before answering 202. */
  datatype Launch = Launch(jobId: string, config: Obj, resumePhase: Option<int>)

  /** generate.  A resume of an unknown id is a 404.  A new job is created and
      saved first, so a request without a PDF leaves a pending job behind when
      it is refused with 400.  `uuid` is the fresh uuid4 string. */
  method Generate(store: JobStore, form: Form, hasPdf: bool, jobId: Option<string>, resumePhase: Option<int>,
                  uuid: string, now: real) returns (r: Reply<Launch>)
    requires store.Valid() && |uuid| >= IdLength
    modifies store
    ensures store.Valid()
    ensures Resuming(jobId, resumePhase) && jobId.value !in old(store.jobs) ==>
      r == NotFound(jobId.value) && store.jobs == old(store.jobs)
    ensures Resuming(jobId, resumePhase) && jobId.value in old(store.jobs) ==>
      r == Ok(Launch(jobId.value, FormConfig(form), resumePhase)) &&
      store.jobs == old(store.jobs)[jobId.value :=
        ApplyAll(old(store.jobs)[jobId.value], ResumeChanges(resumePhase.value)).(updatedAt := now)]
    ensures !Resuming(jobId, resumePhase) ==>
      store.jobs == old(store.jobs)[uuid[..IdLength] := NewJob(uuid[..IdLength], FormConfig(form), now)] &&
      r == (if hasPdf then Ok(Launch(uuid[..IdLength], FormConfig(form), resumePhase))
            else HttpError(400, "No PDF file provided"))
  {
    var config := FormConfig(form);
    if Resuming(jobId, resumePhase) {
      var id := jobId.value;
      if store.Get(id).None? {
        return NotFound(id);
      }
      var _ := store.Update(id, ResumeChanges(resumePhase.value), now);
      r := Ok(Launch(id, config, resumePhase));
    } else {
      var job := store.Create(Some(config), uuid, now);
      if !hasPdf {
        return HttpError(400, "No PDF file provided");
      }
      r := Ok(Launch(job.jobId, config, resumePhase));
    }
  }

  // ───────────── the pipeline runner ─────────────

  /** `resume_phase or 1` */
  function StartPhase(resumePhase: Option<int>): int
  {
    if resumePhase.Some? && resumePhase.value != 0 then resumePhase.value else 1
  }

  function InputPdf(jobId: string): string
  {
    OutputDir + "/input_" + jobId + ".pdf"
  }

  /** The child's argv: `python -u main.py --phase <start>`, then `--is-resume`
      whenever a resume phase was passed at all (even 0), then the uploaded
      PDF when starting from phase 1 or earlier. */
  function Command(python: string, jobId: string, resumePhase: Option<int>): (argv: seq<string>)
    ensures |argv| == 5 + (if resumePhase.Some? then 1 else 0) + (if StartPhase(resumePhase) <= 1 then 1 else 0)
    ensures argv[..5] == [python, "-u", "main.py", "--phase", IntToString(StartPhase(resumePhase))]
    ensures resumePhase.Some? ==> argv[5] == "--is-resume"
    ensures StartPhase(resumePhase) <= 1 ==> argv[|argv| - 1] == InputPdf(jobId)
  {
    [python, "-u", "main.py", "--phase", IntToString(StartPhase(resumePhase))]
      + (if resumePhase.Some? then ["--is-resume"] else [])
      + (if StartPhase(resumePhase) <= 1 then [InputPdf(jobId)] else [])
  }

  /** The resume flag is on the command line exactly when a resume phase was
      passed, and the PDF exactly when the run starts at phase 1 or earlier. */
  lemma CommandFlags(python: string, jobId: string, resumePhase: Option<int>)
    requires python != "--is-resume" && python != InputPdf(jobId)
    ensures "--is-resume" in Command(python, jobId, resumePhase) <==> resumePhase.Some?
    ensures InputPdf(jobId) in Command(python, jobId, resumePhase) <==> StartPhase(resumePhase) <= 1
  {
    var argv := Command(python, jobId, resumePhase);
    var n := IntToString(StartPhase(resumePhase));
    assert n != "--is-resume" && n != InputPdf(jobId) by {
      if n[0] == '-' {
        assert NatToString(-StartPhase(resumePhase))[0] == n[1];
      }
    }
    assert "--is-resume" != InputPdf(jobId) by {
      assert InputPdf(jobId)[0] == 'd';
    }
    if resumePhase.Some? {
      assert argv[5] == "--is-resume";
    }
    if StartPhase(resumePhase) <= 1 {
      assert argv[|argv| - 1] == InputPdf(jobId);
    }
  }

  /** line.upper() contains the marker. */
  predicate Mentions(line: string, marker: string)
  {
    Contains(Upper(line), marker)
  }

  /** The active-phase watch over one output line; the phase 2 markers are
      tried first, then 3, then 4. */
  function DetectPhase(line: string, current: int): (p: int)
  {
    if Mentions(line, "PHASE 2") || Mentions(line, "SKIPPING TO PHASE 2") then 2
    else if Mentions(line, "PHASE 3") || Mentions(line, "SKIPPING TO PHASE 3") || Mentions(line, "RESOLVING AI DIAGRAMS") then 3
    else if Mentions(line, "PHASE 4") || Mentions(line, "SKIPPING TO PHASE 4") || Mentions(line, "AI STRUCTURING") then 4
    else current
  }

  /** A longer marker ending in a shorter one adds nothing. */
  lemma ContainsSuffixMarker(s: string, a: string, b: string)
    requires Contains(s, a + b)
    ensures Contains(s, b)
  {
    var i := ContainsWitness(s, a + b);
    assert s[i + |a|..i + |a| + |b|] == (a + b)[|a|..];
    ContainsAt(s, b, i + |a|);
  }

  /** The "SKIPPING TO" markers are subsumed by the plain ones: the phase is
      2 iff "PHASE 2" appears, 3 iff not that but "PHASE 3" or the diagram
      marker, 4 iff neither but "PHASE 4" or the structuring marker. */
  lemma DetectPhaseOrder(line: string, current: int)
    ensures Mentions(line, "PHASE 2") ==> DetectPhase(line, current) == 2
    ensures !Mentions(line, "PHASE 2") && (Mentions(line, "PHASE 3") || Mentions(line, "RESOLVING AI DIAGRAMS")) ==>
      DetectPhase(line, current) == 3
    ensures (!Mentions(line, "PHASE 2") && !Mentions(line, "PHASE 3") && !Mentions(line, "RESOLVING AI DIAGRAMS") &&
      (Mentions(line, "PHASE 4") || Mentions(line, "AI STRUCTURING"))) ==> DetectPhase(line, current) == 4
    ensures (!Mentions(line, "PHASE 2") && !Mentions(line, "PHASE 3") && !Mentions(line, "RESOLVING AI DIAGRAMS") &&
      !Mentions(line, "PHASE 4") && !Mentions(line, "AI STRUCTURING")) ==> DetectPhase(line, current) == current
  {
    var u := Upper(line);
    assert "SKIPPING TO PHASE 2" == "SKIPPING TO " + "PHASE 2";
    assert "SKIPPING TO PHASE 3" == "SKIPPING TO " + "PHASE 3";
    assert "SKIPPING TO PHASE 4" == "SKIPPING TO " + "PHASE 4";
    if Contains(u, "SKIPPING TO PHASE 2") { ContainsSuffixMarker(u, "SKIPPING TO ", "PHASE 2"); }
    if Contains(u, "SKIPPING TO PHASE 3") { ContainsSuffixMarker(u, "SKIPPING TO ", "PHASE 3"); }
    if Contains(u, "SKIPPING TO PHASE 4") { ContainsSuffixMarker(u, "SKIPPING TO ", "PHASE 4"); }
  }

  /** The log level of an output line: ERROR wins over WARN. */
  function DetectLevel(line: string): (level: string)
    ensures level == "ERROR" || level == "WARN" || level == "INFO"
    ensures level == "ERROR" <==> Mentions(line, "ERROR")
    ensures level == "WARN" <==> !Mentions(line, "ERROR") && Mentions(line, "WARN")
  {
    if Mentions(line, "ERROR") then "ERROR" else if Mentions(line, "WARN") then "WARN" else "INFO"
  }

  predicate IsNewline(c: char)
  {
    c == '\r' || c == '\n'
  }

  /** line.strip("\r\n"): the slice of `s` left after dropping the carriage
      returns and line feeds at both ends; it neither starts nor ends with one. */
  function StripNewlines(s: string): (r: string)
    ensures |r| <= |s|
    ensures r != [] ==> !IsNewline(r[0]) && !IsNewline(r[|r| - 1])
    decreases |s|
  {
    if |s| > 0 && (s[0] == '\r' || s[0] == '\n') then StripNewlines(s[1..])
    else if |s| > 0 && (s[|s| - 1] == '\r' || s[|s| - 1] == '\n') then StripNewlines(s[..|s| - 1])
    else s
  }

  /** The stripped line sits at offset `i` of `s`, and everything cut off on
      either side is a carriage return or a line feed. */
  predicate StrippedAt(s: string, r: string, i: int)
  {
    0 <= i <= |s| - |r| && r == s[i..i + |r|] &&
    (forall k :: 0 <= k < i ==> IsNewline(s[k])) && (forall k :: i + |r| <= k < |s| ==> IsNewline(s[k]))
  }

  /** strip("\r\n") removes only carriage returns and line feeds, and only
      at the ends: the result is a contiguous slice of the line. */
  lemma {:induction false} StripNewlinesSlice(s: string) returns (i: nat)
    ensures StrippedAt(s, StripNewlines(s), i)
    decreases |s|
  {
    var r := StripNewlines(s);
    if |s| > 0 && IsNewline(s[0]) {
      var j := StripNewlinesSlice(s[1..]);
      i := j + 1;
      assert s[1..][j..j + |r|] == s[i..i + |r|];
      forall k | i + |r| <= k < |s| ensures IsNewline(s[k]) {
        assert s[k] == s[1..][k - 1];
      }
      forall k | 0 <= k < i ensures IsNewline(s[k]) {
        if k > 0 { assert s[k] == s[1..][k - 1]; }
      }
    } else if |s| > 0 && IsNewline(s[|s| - 1]) {
      i := StripNewlinesSlice(s[..|s| - 1]);
      assert s[..|s| - 1][i..i + |r|] == s[i..i + |r|];
      forall k | i + |r| <= k < |s| ensures IsNewline(s[k]) {
        if k < |s| - 1 { assert s[k] == s[..|s| - 1][k]; }
      }
    } else {
      i := 0;
    }
  }

  /** One append_log call of the output loop. */
  datatype Logged = Logged(message: string, level: string, source: string)

  /** The source tag of a log line: "Phase <n>". */
  function PhaseSource(phase: int): string
  {
    "Phase " + IntToString(phase)
  }

  /** The output lines read so far: what was logged, and the active phase. */
  function Scanned(lines: seq<string>, start: int): (seq<Logged>, int)
  {
    if lines == [] then ([], start)
    else
      var (logged, phase) := Scanned(lines[..|lines| - 1], start);
      var line := StripNewlines(lines[|lines| - 1]);
      if line == [] then (logged, phase)
      else
        var p := DetectPhase(line, phase);
        (logged + [Logged(line, DetectLevel(line), PhaseSource(p))], p)
  }

  /** The loop over the child's output: blank lines are skipped, the active
      phase follows the markers, and each line is logged with its level and
      the phase it was read in.  The per-line emit, the progress regex and
      its ETA arithmetic are not part of this loop's model. */
  method ScanOutput(lines: seq<string>, start: int) returns (logged: seq<Logged>, phase: int)
    ensures (logged, phase) == Scanned(lines, start)
  {
    logged := [];
    phase := start;
    var i := 0;
    while i < |lines|
      invariant 0 <= i <= |lines| && (logged, phase) == Scanned(lines[..i], start)
    {
      assert lines[..i + 1][..i] == lines[..i];
      var line := StripNewlines(lines[i]);
      if line != [] {
        phase := DetectPhase(line, phase);
        logged := logged + [Logged(line, DetectLevel(line), PhaseSource(phase))];
      }
      i := i + 1;
    }
    assert lines[..i] == lines;
  }

  /** Every logged line is non-empty, carries the level its text calls for,
      and is tagged with the start phase or a phase from 2 to 4; the active
      phase is one of those too. */
  lemma {:induction false} ScannedFacts(lines: seq<string>, start: int)
    ensures var (logged, phase) := Scanned(lines, start);
      |logged| <= |lines| &&
      (phase == start || 2 <= phase <= 4) &&
      forall k :: 0 <= k < |logged| ==>
        logged[k].message != [] && logged[k].level == DetectLevel(logged[k].message) &&
        (logged[k].source == PhaseSource(start) ||
         exists p :: 2 <= p <= 4 && logged[k].source == PhaseSource(p))
    decreases |lines|
  {
    if lines != [] {
      ScannedFacts(lines[..|lines| - 1], start);
      var (logged, phase) := Scanned(lines[..|lines| - 1], start);
      var line := StripNewlines(lines[|lines| - 1]);
      if line != [] {
        var p := DetectPhase(line, phase);
        var l := logged + [Logged(line, DetectLevel(line), PhaseSource(p))];
        assert l[|l| - 1].source == PhaseSource(p);
        if p != start {
          assert 2 <= p <= 4;
        }
      }
    }
  }

  /** The job after emit: update with progress, phase, status and message,
      then the message logged at INFO under the phase's tag. */
  function Emitted(j: Job, progress: real, phase: int, status: string, message: string, now: real, stamp: string): Job
  {
    var updated := ApplyAll(j, [SetProgress(progress), SetCurrentPhase(phase), SetStatus(status),
                                SetMessage(message)]).(updatedAt := now);
    updated.(logLines := KeepLast(updated.logLines + [LogEntry(stamp, "INFO", PhaseSource(phase), message)]))
  }

  /** emit sets the four fields, refreshes the update time and logs its
      message last; nothing else about the job changes. */
  lemma EmittedFields(j: Job, progress: real, phase: int, status: string, message: string, now: real, stamp: string)
    ensures var e := Emitted(j, progress, phase, status, message, now, stamp);
      e == j.(progressPercentage := progress, currentPhase := phase, status := status, message := message,
               updatedAt := now, logLines := e.logLines) &&
      |e.logLines| > 0 && e.logLines[|e.logLines| - 1] == LogEntry(stamp, "INFO", PhaseSource(phase), message)
  {
    ApplyFour(j, SetProgress(progress), SetCurrentPhase(phase), SetStatus(status), SetMessage(message));
    var updated := ApplyAll(j, [SetProgress(progress), SetCurrentPhase(phase), SetStatus(status),
                                SetMessage(message)]).(updatedAt := now);
    AppendKeepsNewest(updated.logLines, LogEntry(stamp, "INFO", PhaseSource(phase), message));
  }

  function FailureMessage(phase: int): string
  {
    "Pipeline failed at Phase " + IntToString(phase) + "."
  }

  /** The job after the runner's failure path: emit marks it failed at the
      job's own phase, then update makes it recoverable from that phase. */
  function FailedJob(j: Job, now: real, stamp: string): Job
  {
    var p := j.currentPhase;
    var emitted := Emitted(j, (p - 1) as real * 25.0, p, "failed", FailureMessage(p), now, stamp);
    ApplyAll(emitted, [SetRecoverable(true), SetResumePhase(Some(p))]).(updatedAt := now)
  }

  const CompletedMessage: string := "BookUdecate complete! PDF ready."
  const PdfPath: string := OutputDir + "/BookEducate.pdf"

  function CompletionChanges(): seq<Change>
  {
    [SetStatus("completed"), SetProgress(100.0), SetPdfPath(Some(PdfPath)),
     SetMessage("Book generation complete! PDF is ready to download.")]
  }

  /** The job after the runner's success path: update to completed with the
      PDF path, then emit at phase 4 with its own message. */
  function CompletedJob(j: Job, now: real, stamp: string): Job
  {
    var done := ApplyAll(j, CompletionChanges()).(updatedAt := now);
    Emitted(done, 100.0, 4, "completed", CompletedMessage, now, stamp)
  }

  lemma ApplyAllCons(j: Job, c: Change, cs: seq<Change>)
    ensures ApplyAll(j, [c] + cs) == ApplyAll(Apply(j, c), cs)
  {
    assert ([c] + cs)[1..] == cs;
  }

  /** Four keywords in order. */
  lemma ApplyFour(j: Job, a: Change, b: Change, c: Change, d: Change)
    ensures ApplyAll(j, [a, b, c, d]) == Apply(Apply(Apply(Apply(j, a), b), c), d)
  {
    assert [a, b, c, d] == [a] + [b, c, d] && [b, c, d] == [b] + [c, d] && [c, d] == [c] + [d] && [d] == [d] + [];
    ApplyAllCons(j, a, [b, c, d]);
    ApplyAllCons(Apply(j, a), b, [c, d]);
    ApplyAllCons(Apply(Apply(j, a), b), c, [d]);
    ApplyAllCons(Apply(Apply(Apply(j, a), b), c), d, []);
  }

  lemma ApplyTwo(j: Job, a: Change, b: Change)
    ensures ApplyAll(j, [a, b]) == Apply(Apply(j, a), b)
  {
    assert [a, b] == [a] + [b] && [b] == [b] + [];
    ApplyAllCons(j, a, [b]);
    ApplyAllCons(Apply(j, a), b, []);
  }

  /** A failed run leaves the job failed, recoverable, resuming at the phase
      it was in, with the failure message logged last. */
  lemma FailedJobFields(j: Job, now: real, stamp: string)
    ensures var f := FailedJob(j, now, stamp);
      f.status == "failed" && f.isRecoverable && f.resumePhase == Some(j.currentPhase) &&
      f.currentPhase == j.currentPhase && f.jobId == j.jobId && f.config == j.config &&
      f.progressPercentage == (j.currentPhase - 1) as real * 25.0 &&
      f.message == FailureMessage(j.currentPhase) &&
      |f.logLines| > 0 && f.logLines[|f.logLines| - 1].message == f.message
  {
    var p := j.currentPhase;
    EmittedFields(j, (p - 1) as real * 25.0, p, "failed", FailureMessage(p), now, stamp);
    ApplyTwo(Emitted(j, (p - 1) as real * 25.0, p, "failed", FailureMessage(p), now, stamp),
             SetRecoverable(true), SetResumePhase(Some(p)));
  }

  /** A clean exit leaves the job completed at phase 4 and 100 percent with
      the PDF path set; its message is the emit's, not the update's. */
  lemma CompletedJobFields(j: Job, now: real, stamp: string)
    ensures var c := CompletedJob(j, now, stamp);
      c.status == "completed" && c.progressPercentage == 100.0 && c.currentPhase == 4 &&
      c.pdfPath == Some(PdfPath) && c.message == CompletedMessage &&
      c.isRecoverable == j.isRecoverable && c.resumePhase == j.resumePhase && c.jobId == j.jobId &&
      |c.logLines| > 0 && c.logLines[|c.logLines| - 1].message == CompletedMessage
  {
    var cs := CompletionChanges();
    ApplyFour(j, cs[0], cs[1], cs[2], cs[3]);
    EmittedFields(ApplyAll(j, cs).(updatedAt := now), 100.0, 4, "completed", CompletedMessage, now, stamp);
  }

  /** emit: update, log, write the store.  Publishing the payload to the
      event loop is not part of this model. */
  method Emit(store: JobStore, jobId: string, progress: real, phase: int, status: string, message: string,
              now: real, stamp: string)
    requires store.Valid()
    modifies store
    ensures store.Valid() && store.order == old(store.order)
    ensures jobId !in old(store.jobs) ==> store.jobs == old(store.jobs)
    ensures jobId in old(store.jobs) ==>
      store.jobs == old(store.jobs)[jobId := Emitted(old(store.jobs)[jobId], progress, phase, status, message, now, stamp)]
    ensures store.saved == Some(Snapshot(store.jobs))
  {
    var _ := store.Update(jobId, [SetProgress(progress), SetCurrentPhase(phase), SetStatus(status),
                                  SetMessage(message)], now);
    store.AppendLog(jobId, message, "INFO", PhaseSource(phase), stamp);
    store.Save();
  }

  /** The failure path for a job still in the store. */
  method FinishFailed(store: JobStore, jobId: string, now: real, stamp: string)
    requires store.Valid() && jobId in store.jobs
    modifies store
    ensures store.Valid() && store.order == old(store.order)
    ensures store.jobs == old(store.jobs)[jobId := FailedJob(old(store.jobs)[jobId], now, stamp)]
    ensures store.saved == Some(Snapshot(store.jobs))
  {
    ghost var m0 := store.jobs;
    var p := store.jobs[jobId].currentPhase;
    ghost var emitted := Emitted(m0[jobId], (p - 1) as real * 25.0, p, "failed", FailureMessage(p), now, stamp);
    Emit(store, jobId, (p - 1) as real * 25.0, p, "failed", FailureMessage(p), now, stamp);
    ghost var m1 := store.jobs;
    var _ := store.Update(jobId, [SetRecoverable(true), SetResumePhase(Some(p))], now);
    assert store.jobs == m0[jobId := FailedJob(m0[jobId], now, stamp)] by {
      OverwriteTwice(m0, jobId, emitted, store.jobs[jobId]);
    }
    store.Save();
  }

  /** The success path for a job still in the store. */
  method FinishCompleted(store: JobStore, jobId: string, now: real, stamp: string)
    requires store.Valid() && jobId in store.jobs
    modifies store
    ensures store.Valid() && store.order == old(store.order)
    ensures store.jobs == old(store.jobs)[jobId := CompletedJob(old(store.jobs)[jobId], now, stamp)]
    ensures store.saved == Some(Snapshot(store.jobs))
  {
    ghost var m0 := store.jobs;
    ghost var done := ApplyAll(m0[jobId], CompletionChanges()).(updatedAt := now);
    var _ := store.Update(jobId, CompletionChanges(), now);
    store.Save();
    Emit(store, jobId, 100.0, 4, "completed", CompletedMessage, now, stamp);
    assert store.jobs == m0[jobId := CompletedJob(m0[jobId], now, stamp)] by {
      OverwriteTwice(m0, jobId, done, store.jobs[jobId]);
    }
  }

  /** A second write to the same key replaces the first. */
  lemma OverwriteTwice(m: map<string, Job>, k: string, a: Job, b: Job)
    ensures m[k := a][k := b] == m[k := b]
  {
    assert m[k := a][k := b].Keys == m[k := b].Keys;
  }

  /** The runner after the child exits.  A job that vanished from the store
      is left as it is: update and append_log do nothing, and only the
      writes of the store happen. */
  method FinishRun(store: JobStore, jobId: string, returnCode: int, now: real, stamp: string)
    requires store.Valid()
    modifies store
    ensures store.Valid() && store.order == old(store.order)
    ensures jobId !in old(store.jobs) ==> store.jobs == old(store.jobs)
    ensures jobId in old(store.jobs) ==> store.jobs == old(store.jobs)[jobId :=
      if returnCode != 0 then FailedJob(old(store.jobs)[jobId], now, stamp)
      else CompletedJob(old(store.jobs)[jobId], now, stamp)]
    ensures store.saved == Some(Snapshot(store.jobs))
  {
    if store.Get(jobId).None? {
      store.Save();
    } else if returnCode != 0 {
      FinishFailed(store, jobId, now, stamp);
    } else {
      FinishCompleted(store, jobId, now, stamp);
    }
  }
}
