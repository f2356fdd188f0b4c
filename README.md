# Textbook expansion pipeline — a Dafny model

The system turns a source manuscript into an expanded textbook in four steps:

1. It cuts the manuscript into chunks.
2. It expands every chunk through a small agent graph:
   - an analyst plans the expansion;
   - a drafter writes it;
   - a critic approves it or sends it back.
3. It structures the expanded text into chapter JSON.
4. It renders the chapters to Typst or LaTeX.

A job server runs the pipeline as a child process. Around it sit a job registry with a log ring, a server-sent-events broker, restart recovery and a REST surface. A dead-letter queue holds chunks that failed, and the post-processor cleans the compiled book.

This project models the logic of those parts, one Dafny module per source file:

| module | models | its parts |
|---|---|---|
| `TextUtil` (text.dfy) | Python string behaviour | whitespace as `str.isspace` sees it; strip, split, join, replace, upper, lower |
| `JsonValue` (json.dfy) | parsed JSON values | dicts keep their insertion order, so an object is an association list |
| `Agents` (agents.dfy) | the three graph nodes and the model router | analyst, drafter, critic |
| `ExpansionGraph` (graph.dfy) | the revise loop and its router | |
| `Chunker` (chunker.dfy) | the chunker | heading split; numbered-section split; the length split that bounds every chunk |
| `Orchestrator` (orchestrator.dfy) | the master orchestrator | phase checkpoint and resume; the fresh-run purge; the Phase-2 swarm; Phase-4 structuring; the capped diagram pass |
| `DeadLetter` (dlq.dfy) | the `failed_chunks` table | |
| `Jobs` (jobs.dfy) | the job store | Job records and their dict form; the log ring; save and load |
| `Sse` (sse.dfy) | the event broker | bounded per-subscriber queues |
| `Api` (api.dfy) | the server's own logic | startup recovery; log pagination; the progress payload; the submit checks; the pipeline runner's command line, log classification and exit handling |
| `PostProcessor` (post.dfy) | the post-processor | paragraph dedup; micro-chapter merge; syllabus-restart strip; empty and heading-only chapter filters |
| `Structurer` (structurer.dfy) | the Phase-4 structurer | input guards; reply cleanup; retry and error classification; heading and paragraph rewrite |
| `Markup` (markup.dfy) | what both renderers share | markdown images; image paths; the unit filter; the problem-statement prefix |
| `Typst` (typst.dfy) | the Typst renderer | |
| `Latex` (latex.dfy) | the LaTeX renderer | escaping; brace balance; section and page rendering; the structural sanitizer passes; the removal of empty tables |
| `Placeholder` (placeholder.dfy) | the placeholder image generator | word wrapping; colour cycling |

Objects whose fields the source updates in place are classes:

| class | holds |
|---|---|
| `Jobs.JobStore` | the jobs and the log ring |
| `Sse.Manager` | the subscriber queues |
| `DeadLetter.Queue` | the table |
| `Orchestrator.Workspace` | the checkpoint files |
| `Orchestrator.DiagramBudget` | the diagram counter |
| `Placeholder.PlaceholderGenerator` | the colour index |

Loops in the source are methods with invariants, each proved against a specification function. The rest is functions and lemmas.

## Model

| member | source | states |
|---|---|---|
| Agents.GetModel | backend/src/agents.py:34-40 | DEFAULT_MODEL when it is set and non-empty, otherwise the Gemini flash default; never empty |
| Agents.SelectModel | backend/src/agents.py:64-83 | ollama routes to "ollama/llama3"; otherwise a math chunk goes to MATH_MODEL and prose to FLASH_MODEL when set, and each falls back to the model `_get_model` picks when DEFAULT_MODEL is not set to the empty string |
| Agents.MathRouting | backend/src/agents.py:78-81 | a chunk holding any math keyword, at any position, goes to MATH_MODEL when it is set and to the default model otherwise |
| Agents.ProseRouting | backend/src/agents.py:78-82 | a chunk holding no math keyword, the empty chunk among them, goes to FLASH_MODEL when it is set and to the default model otherwise |
| Agents.EmptyDefaultModelSelected | backend/src/agents.py:74-82 | with DEFAULT_MODEL set to the empty string and FLASH_MODEL unset, prose is routed to the empty model name, while `_get_model` picks the fallback |
| Agents.UnboundProviderIsNotNetwork | backend/src/agents.py:250-272 | the NameError the analyst's request raises is not classed as a network error, so it is not retried |
| Agents.AnalystNode | backend/src/agents.py:198-291 | every analysis the node returns is an error message (blank chunk, missing key, or the API error from the NameError) |
| Agents.DrafterNode | backend/src/agents.py:370-540 | at most three calls; a returned draft is the original chunk with the revision count one higher; an escaping exception is a non-network failure, and the first non-network failure escapes after exactly its own call; a blank chunk, a failed analysis or a missing key makes no call; otherwise a returned draft comes after exactly three calls, since a reply neither ends the loop nor is kept |
| Agents.LowEffortFeedback | backend/src/agents.py:592-605 | the low-effort feedback starts with its LOW EFFORT tag |
| Agents.CriticGate | backend/src/agents.py:583-626 | the checks in order: a blank draft or chunk is approved; a short draft gets the low-effort feedback; a long draft that does not end cleanly gets the truncation feedback; a clean ending with a code fence gets the artifact feedback; exactly the drafts passing all of them reach the model |
| Agents.CriticNode | backend/src/agents.py:573-717 | the gate's verdict without a call; a missing key approves without a call; otherwise the feedback and the number of calls are those of `RemoteReview`, the retry loop over the attempts |
| Agents.ReplyBecomesFeedback | backend/src/agents.py:634-717 | when every attempt before the k-th (k < 5) fails with network trouble and the k-th brings non-empty content, that content, stripped, is the feedback after k + 1 calls |
| Chunker.PiecesConcat | backend/src/chunker.py:24-28 | the pieces of a heading split spell out the text |
| Chunker.SplitByHeading | backend/src/chunker.py:22-35 | every piece is stripped and non-empty, and no non-space character is lost |
| Chunker.CleanNonSpace | backend/src/chunker.py:29 | stripping and dropping blank pieces keeps every non-space character |
| Chunker.ChapterCutsAreCapitalised | backend/src/chunker.py:24-28 | a chapter cut starts with a capitalised or all-caps keyword |
| Chunker.Candidates | backend/src/chunker.py:121-132 | chapter split, else numbered-section split, else the whole text |
| Chunker.SentencePiecesNonSpace | backend/src/chunker.py:67 | the sentence split keeps every non-space character |
| Chunker.HardSlice | backend/src/chunker.py:78-80 | the hard slices are at most max_chars long and spell out the sentence |
| Chunker.PackSentence | backend/src/chunker.py:69-82 | adding one sentence keeps every chunk within the limit and the text intact |
| Chunker.PackSentences | backend/src/chunker.py:67-84 | packing a paragraph's sentences keeps chunks within the limit and loses no text |
| Chunker.PackParagraph | backend/src/chunker.py:48-88 | one paragraph step keeps the bound and the text |
| Chunker.SplitByLength | backend/src/chunker.py:38-93 | every chunk has at most max_chars characters and no non-space character is lost |
| Chunker.HardSplitOne | backend/src/chunker.py:137-141 | an oversized candidate becomes chunks within the limit holding its content; a candidate within the limit is kept as it is |
| Chunker.HardSplitAll | backend/src/chunker.py:134-141 | every output chunk is within the limit, no non-space character is lost or reordered, and when every candidate fits the output is the candidates themselves |
| Chunker.ChunkManuscript | backend/src/chunker.py:96-148 | a missing file is reported; otherwise the chunks are one piece per candidate in order, each piece within the limit and holding its candidate's non-space text, and a candidate already within the limit is its own piece |
| ExpansionGraph.ShouldRevise | backend/src/graph.py:26-43 | END exactly when the feedback starts with APPROVED (missing feedback counts as approval) or three revisions are reached |
| ExpansionGraph.MissingFeedbackEnds | backend/src/graph.py:33-37 | no feedback ends the loop |
| ExpansionGraph.LowEffortIsNotApproval | backend/src/graph.py:36-37 | the low-effort feedback never counts as approval |
| ExpansionGraph.LowEffortRevises | backend/src/graph.py:36-43 | low-effort feedback below three revisions sends the draft back |
| ExpansionGraph.DraftAndReview | backend/src/graph.py:67-68 | one round sets the draft to the chunk and the count one higher; a short chunk gets the low-effort feedback without a call |
| ExpansionGraph.RunGraph | backend/src/graph.py:58-71 | the loop stops where the router says END; the draft is the original chunk; the count rises by the number of drafts and stops at three; a short chunk is revised up to three times with no remote call |
| Orchestrator.CompletedPhase | backend/main.py:72-79 | the recorded phase, or 0 for a missing checkpoint or one that is not valid JSON |
| Orchestrator.ChooseStart | backend/main.py:826-849 | resume starts after the last completed phase, or reports nothing to resume after phase 4; a fresh run starts at --phase or 1; starting at phase 1 without the PDF is an error |
| Orchestrator.ResumeSkipsCompleted | backend/main.py:826-836 | every phase a resumed run executes comes after the completed one, and resuming never purges |
| Orchestrator.PurgeOutput | backend/main.py:139-154 | each top-level entry is kept exactly when its name is excluded, and removed otherwise |
| Orchestrator.NestedExceptionIsDeleted | backend/main.py:133-152 | with the fresh run's exceptions (the input PDF and jobs.json), an input PDF below a top-level directory of the output does not save that directory: the directory is deleted whole |
| Orchestrator.PurgeDeletes | backend/main.py:144-152 | the purge deletes a top-level entry exactly when it is not one of the exceptions |
| Orchestrator.TargetChars | backend/main.py:295-302 | the larger of four times the chunk length and the chunk's share of the page target, capped |
| Orchestrator.Concurrency | backend/main.py:406-414 | 30 for a flash model, 10 for a pro model, 15 otherwise |
| Orchestrator.DefaultConcurrency | backend/main.py:408-414 | with DEFAULT_MODEL unset the swarm runs 15 at a time |
| Orchestrator.ClassifyOutcome | backend/main.py:314-400 | a crash, an empty expansion or an unchanged one keeps the chunk and writes a dead-letter line with its reason; otherwise the expansion is used |
| Orchestrator.UnchangedIsLogged | backend/main.py:345-363 | a draft equal to its chunk is reported as unchanged |
| Orchestrator.Workspace.ProcessChunk | backend/main.py:277-404 | an existing checkpoint is reused untouched; otherwise the chunk itself is stored, and a non-blank chunk is logged as unchanged after one graph run |
| Orchestrator.Workspace.RunPhase2 | backend/main.py:406-427 | results are the checkpoint or the chunk, in chunk order; every chunk ends with a file and old files stay; the body is their join |
| Orchestrator.FallbackNode | backend/main.py:571-579 | the fallback is a chapter whose only section is a paragraph holding the first 2000 characters of the chunk (all of a shorter chunk), with the first 100 characters of the error as its failure note |
| Orchestrator.StructurerStep | backend/main.py:542-555 | a list is wrapped as a chapter; a dict without error is the node; a rate-limit error is deferred; any other error raises |
| Orchestrator.StructurePhase | backend/main.py:506-593 | sections are the kept ones followed by the new results; every chunk from the start index is stored in order unless rate limited; with no existing file the last node is the NameError fallback |
| Orchestrator.StructureOne | backend/main.py:539-579 | a rate-limited chunk gives no node and no count; an error gives the fallback with its message; a structured chunk is counted, and it becomes the NameError fallback exactly when its completion is a checkpoint (every 50th, or the last) and no structure file was loaded; the checkpoint is written exactly at such a completion with a loaded file |
| Orchestrator.StripDiagramTagsAbsent | backend/main.py:642-644 | text without a diagram tag comes back unchanged |
| Orchestrator.DiagramBudget.ResolveText | backend/main.py:626-649 | after original assets are resolved: text without NEW_DIAGRAM is kept; below the cap the text is the art resolver's result and the counter rises by one exactly when that result differs; at the cap the tags are stripped and the counter stays |
| Orchestrator.DiagramBudget.ProcessNode | backend/main.py:626-654 | the resolved tree and the final counter are those of `ResolveValue`, a dict's own "text" before its values and list items in order; the counter never passes the cap |
| Orchestrator.BudgetValue | backend/main.py:621-649 | over a whole tree the diagram count never goes down, never passes MAX_NEW_DIAGRAMS when it starts within it, and does not move once the budget is spent |
| DeadLetter.Queue.constructor | backend/src/dlq.py:29-32 | the queue holds the table it opens |
| DeadLetter.PushIsPending | backend/src/dlq.py:49-59 | a pushed chunk is listed as pending with its error cut to 500 characters, and ids stay distinct |
| DeadLetter.Queue.Push | backend/src/dlq.py:49-63 | the rows become the insert-or-replace of the chunk, and ids stay distinct |
| DeadLetter.SelectExact | backend/src/dlq.py:65-74 | a row is listed exactly when it has the status asked for |
| DeadLetter.SelectUnique | backend/src/dlq.py:65-74 | the listed ids are distinct |
| DeadLetter.Queue.GetAll | backend/src/dlq.py:65-74 | the listing of one status, never longer than the table |
| DeadLetter.Queue.MarkResolved | backend/src/dlq.py:76-83 | the rows become their resolution by id, and ids stay distinct |
| DeadLetter.ResolvedNotPending | backend/src/dlq.py:76-83 | a resolved chunk is no longer pending |
| DeadLetter.ResolveUnknown | backend/src/dlq.py:76-83 | resolving an unknown id changes nothing |
| DeadLetter.Queue.TryItem | backend/src/dlq.py:93-104 | success exactly when some attempt within max_retries is accepted; at most max_retries calls |
| DeadLetter.RecoversWitness | backend/src/dlq.py:93-104 | a chunk recovers exactly when some attempt within the limit succeeds |
| DeadLetter.Queue.RetryAll | backend/src/dlq.py:85-106 | the rows become their retried form; the recovered count is the number of pending rows that recover; at most max_retries calls per pending row |
| DeadLetter.RetryKeepsRows | backend/src/dlq.py:85-106 | retrying keeps every row's id, text and retry count; with no attempts nothing changes |
| DeadLetter.Queue.Summary | backend/src/dlq.py:108-113 | the counts per status add up to the number of rows |
| DeadLetter.TallySum | backend/src/dlq.py:108-113 | the counts add up to the number of rows |
| DeadLetter.TallyCount | backend/src/dlq.py:108-113 | each count is the number of rows with that status |
| Jobs.ToDict | backend/server/jobs.py:38-39 | a job's dict holds every field name with its value, in declaration order |
| Jobs.FromDict | backend/server/jobs.py:41-43 | a loaded job keeps the dict's job_id, and every key of the dict is a field name |
| Jobs.DictRoundTrip | backend/server/jobs.py:38-43 | from_dict(to_dict(job)) gives the job back |
| Jobs.FromDictStatus | backend/server/jobs.py:41-43 | the loaded status is the stored one, or pending when none is stored |
| Jobs.UnknownIgnored | backend/server/jobs.py:68-70 | changes to names that are not fields have no effect |
| Jobs.UpdateStatus | backend/server/jobs.py:68-70 | the status after an update is the last status change, or the old status |
| Jobs.KeepLast | backend/server/jobs.py:86-89 | the log keeps its newest entries, at most 500, and is untouched within the limit |
| Jobs.AppendKeepsNewest | backend/server/jobs.py:86-89 | after an append the new entry is last and the entries before it are the newest old ones |
| Jobs.LoadedFromEntries | backend/server/jobs.py:101-108 | every loaded job was already known or decodes from the file entry under its id |
| Jobs.JobStore.constructor | backend/server/jobs.py:49-52 | a new store loads the file's entries up to the first that fails, or starts empty without a dict file |
| Jobs.JobStore.Load | backend/server/jobs.py:101-108 | the file's entries are decoded in order until the first that fails; an unreadable file changes nothing |
| Jobs.JobStore.Save | backend/server/jobs.py:94-99 | the file becomes the dict form of every job; the jobs are unchanged |
| Jobs.JobStore.Create | backend/server/jobs.py:54-59 | the id is the first eight characters of the uuid; a new pending job with the config is added and the file rewritten |
| Jobs.JobStore.Get | backend/server/jobs.py:61-62 | the job under the id exactly when there is one |
| Jobs.JobStore.Update | backend/server/jobs.py:64-73 | an unknown id changes nothing; otherwise the changes are applied and updated_at set, without a save |
| Jobs.JobStore.AppendLog | backend/server/jobs.py:75-89 | an unknown id changes nothing; otherwise the entry is appended and the log cut to its last 500 |
| Jobs.JobStore.AllJobs | backend/server/jobs.py:91-92 | the dict of every job, in creation order |
| Sse.RemoveExactly | backend/server/sse_manager.py:39-40 | unsubscribing removes exactly that queue and keeps the queues distinct |
| Sse.PublishReachesOne | backend/server/sse_manager.py:42-51 | a publish changes only the first queue with room, by appending the event |
| Sse.SecondSubscriberMissesEvent | backend/server/sse_manager.py:47-49 | with two subscribers with room, the second never receives the event |
| Sse.Manager.constructor | backend/server/sse_manager.py:22-24 | a new broker has no subscribers |
| Sse.Manager.Subscribe | backend/server/sse_manager.py:31-32 | a fresh empty queue is appended to the job's list |
| Sse.Manager.Unsubscribe | backend/server/sse_manager.py:39-40 | the queue is removed from the job's list |
| Sse.Manager.Receive | backend/server/sse_manager.py:34-38 | the oldest event is taken; a terminal event unsubscribes; an empty queue gives nothing |
| Sse.Manager.Publish | backend/server/sse_manager.py:42-51 | the first queue with room gets the event and the call then raises; full queues drop it; nothing else changes |
| Sse.Manager.BroadcastSync | backend/server/sse_manager.py:53-61 | the publish happens exactly when the loop is running |
| Api.RecoveredFields | backend/server/api.py:54-62 | a processing job becomes failed with the restart message and resumable; nothing else changes |
| Api.StartupRecovery | backend/server/api.py:52-63 | every job is replaced by its recovered form and the file rewritten |
| Api.NothingProcessingAfterStartup | backend/server/api.py:54-62 | no job is processing after startup |
| Api.GetLogs | backend/server/api.py:211-228 | an unknown job is a 404; otherwise the echoed job id, the slice from the cursor of at most limit entries, the total, the next cursor, and has_more exactly when the next cursor is below the total |
| Api.PageThenRest | backend/server/api.py:220-227 | a page and the log after its end spell out the log from the cursor |
| Api.PollingReadsAll | backend/server/api.py:211-228 | following next_cursor reads every later entry exactly once, in order |
| Api.NegativeCursor | backend/server/api.py:220-227 | a negative cursor with more than 49 lines returns nothing and leaves has_more set |
| Api.PhaseLabel | backend/server/api.py:485-496 | phases 1 to 4 get their "Phase n:" label, anything else the default |
| Api.ProgressPayload | backend/server/api.py:483-518 | a failed job carries an error: SERVER_INTERRUPTED for the restart message, JOB_FAILED otherwise, with the phase label |
| Api.InterruptedPayload | backend/server/api.py:505-516 | a job recovered at restart reports SERVER_INTERRUPTED, resumable from its phase |
| Api.GetJob | backend/server/api.py:200-204 | the payload of a known job, otherwise a 404 |
| Api.Generate | backend/server/api.py:86-157 | resuming an unknown job is a 404; resuming a known one resets it and relaunches from its phase; otherwise a new job is created, and without a PDF the reply is a 400 |
| Api.Command | backend/server/api.py:334-345 | python -u main.py --phase n, then --is-resume when resuming, then the input PDF when starting at phase 1 |
| Api.CommandFlags | backend/server/api.py:341-345 | --is-resume appears exactly when a resume phase is given, and the input PDF exactly when the start phase is at most 1 |
| Api.DetectPhaseOrder | backend/server/api.py:379-387 | PHASE 2 wins over PHASE 3 and the diagram marker, which win over PHASE 4 and structuring; otherwise the phase stays |
| Api.DetectLevel | backend/server/api.py:390-394 | ERROR when the line mentions an error, WARN when it mentions a warning and no error, INFO otherwise |
| Api.StripNewlinesSlice | backend/server/api.py:373 | `line.strip("\r\n")` is a contiguous slice of the line, and everything cut from either end is a carriage return or a line feed |
| Api.ScanOutput | backend/server/api.py:372-398 | the entries logged and the final phase are those of the scan over the lines |
| Api.ScannedFacts | backend/server/api.py:372-398 | at most one entry per line, none empty, each with its detected level and a phase source; the phase is the start or 2 to 4 |
| Api.EmittedFields | backend/server/api.py:277-298 | the job takes the new progress, phase, status and message, and its log ends with an INFO entry from the phase's source |
| Api.Emit | backend/server/api.py:277-304 | a known job is updated as emitted and the file rewritten; an unknown job is unchanged |
| Api.FailedJobFields | backend/server/api.py:448-459 | a failed run marks the job failed and resumable from its phase, with progress (phase-1)*25 and the failure message logged |
| Api.FinishFailed | backend/server/api.py:448-459 | the job takes its failed form and the file is rewritten |
| Api.CompletedJobFields | backend/server/api.py:461-471 | a completed run has status completed, 100 percent, phase 4, the PDF path and the completed message logged |
| Api.FinishCompleted | backend/server/api.py:461-471 | the job takes its completed form and the file is rewritten |
| Api.FinishRun | backend/server/api.py:446-471 | a non-zero exit fails the job, a zero exit completes it; an unknown job is unchanged |
| PostProcessor.SplitBlocksRebuilds | backend/src/post_processor.py:36 | the blocks and separators of the blank-line split rebuild the text |
| PostProcessor.KeptInOrder | backend/src/post_processor.py:43-61 | kept blocks keep their order |
| PostProcessor.KeptRule | backend/src/post_processor.py:43-61 | a block is kept exactly when it passes the test against the last kept block |
| PostProcessor.ShortBlocksKept | backend/src/post_processor.py:47-54 | short non-blank blocks are always kept and blank ones always dropped |
| PostProcessor.Deduplicate | backend/src/post_processor.py:29-66 | a text of one block is returned as is; otherwise the kept blocks joined by a blank line |
| PostProcessor.FoldMicroChapters | backend/src/post_processor.py:98-114 | the pass-1 scan computes Pass1, whose section order and chapter count are proved by the two lemmas below |
| PostProcessor.Pass1Sections | backend/src/post_processor.py:98-114 | pass 1 keeps every section in order |
| PostProcessor.Pass1Count | backend/src/post_processor.py:102-114 | pass 1 keeps the first chapter and each later one of at least min_chars |
| PostProcessor.ShortestPair | backend/src/post_processor.py:124-131 | the first adjacent pair with the least combined size |
| PostProcessor.MergePairSections | backend/src/post_processor.py:133-137 | merging a pair keeps every section in order |
| PostProcessor.MergeMicroChapters | backend/src/post_processor.py:74-139 | the result is pass 2 applied to pass 1: exactly min(max_chapters, pass-1 count) chapters, each merge joining the first shortest adjacent pair, with every section in order; below 1 it ends in an IndexError |
| PostProcessor.Pass2Result | backend/src/post_processor.py:118-137 | pass 2 succeeds exactly when max_chapters is at least 1, leaves min(max_chapters, n) chapters, and keeps every section in order and the first chapter's fields |
| PostProcessor.StripSyllabusRestarts | backend/src/post_processor.py:147-202 | untouched without a chapter line or with one on the first line; otherwise restart lines from the third chapter on are dropped |
| PostProcessor.KeptLinesSubseq | backend/src/post_processor.py:180-196 | the surviving lines are a subsequence of the input |
| PostProcessor.KeptBeforeThirdChapter | backend/src/post_processor.py:180-196 | everything before the third chapter line survives |
| PostProcessor.KeptPrefixLines | backend/src/post_processor.py:180-196 | with fewer than three chapter lines nothing is removed |
| PostProcessor.StripEmptyChapters | backend/src/post_processor.py:210-229 | the chapters with sections, in order |
| PostProcessor.StripEmptyChaptersSpec | backend/src/post_processor.py:210-229 | exactly the chapters with sections remain, in order |
| PostProcessor.HasRealContent | backend/src/post_processor.py:239-281 | true exactly when some non-heading section carries real content |
| PostProcessor.StripHeadingOnlyChapters | backend/src/post_processor.py:232-296 | the chapters with real content, in order |
| PostProcessor.StripHeadingOnlySpec | backend/src/post_processor.py:232-296 | exactly the chapters with real content remain, in order |
| Structurer.Truncate | backend/src/structurer.py:104-110 | short chunks are unchanged; long ones keep 500000 characters and get the marker |
| Structurer.StripFences | backend/src/structurer.py:161-169 | the cleaned reply has no surrounding whitespace |
| Structurer.JsonFenceRoundTrip | backend/src/structurer.py:161-169 | a reply fenced as json gives back its stripped body |
| Structurer.PlainFenceRoundTrip | backend/src/structurer.py:161-169 | a reply in a bare fence gives back its stripped body |
| Structurer.UnfencedReply | backend/src/structurer.py:161-169 | an unfenced reply only loses surrounding whitespace |
| Structurer.Escape | backend/src/structurer.py:173 | the rewrite keeps the first character and never shortens |
| Structurer.EscapeNoBackslash | backend/src/structurer.py:173 | text without backslashes is unchanged |
| Structurer.EscapeIdempotent | backend/src/structurer.py:173 | doubling lone backslashes twice is doubling them once |
| Structurer.NumberingPrefix | backend/src/structurer.py:194-196 | what is removed is numbering groups of A-Z and 0-9 ending in dots |
| Structurer.CleanHeading | backend/src/structurer.py:190-196 | the cleaned heading is stripped; without numbering it is only stripped |
| Structurer.DropOneGroup | backend/src/structurer.py:194-196 | each leading numbering group is removed |
| Structurer.SpaceDollarsSpec | backend/src/structurer.py:197-206 | no letter touches a dollar sign afterwards, only spaces are added, and the text is unchanged exactly when already spaced |
| Structurer.SpaceDollarsIdempotent | backend/src/structurer.py:201-206 | spacing twice is spacing once |
| Structurer.Clean | backend/src/structurer.py:188-214 | the cleaned value has the same shape and keys |
| Structurer.GetCleaned | backend/src/structurer.py:208-212 | each key of a cleaned dict holds its cleaned value |
| Structurer.HeadingNode | backend/src/structurer.py:190-196 | a heading's text loses its numbering and its other keys are cleaned |
| Structurer.ParagraphNode | backend/src/structurer.py:197-206 | a paragraph's text gets its math spacing and its other keys are cleaned |
| Structurer.Decide | backend/src/structurer.py:136-263 | a retry happens only before the last attempt and waits the linear or the backoff delay |
| Structurer.FailFast | backend/src/structurer.py:250-256 | authentication and missing-model errors are never retried |
| Structurer.RateLimitSchedule | backend/src/structurer.py:236-248 | rate limits wait 10 s, then 20 s, and the third is reported |
| Structurer.BackoffDoubles | backend/src/structurer.py:243 | each backoff doubles the previous one |
| Structurer.FencedChapterAccepted | backend/src/structurer.py:161-216 | a json-fenced chapter reply that parses is returned, cleaned |
| Structurer.StructurerNode | backend/src/structurer.py:89-265 | blank chunks and missing keys return errors without a call; at most three calls; every retry is preceded by its delay |
| Markup.NextImage | backend/src/renderer_typst.py:72-76 | the first position where the image pattern matches |
| Markup.SegmentsShape | backend/src/renderer_typst.py:76-99 | text and image pieces alternate, starting and ending with text |
| Markup.SegmentsRebuild | backend/src/renderer_typst.py:76-97 | the pieces spell out the paragraph |
| Markup.NoImageOnePiece | backend/src/renderer_typst.py:76-99 | a paragraph without "![" is one text piece |
| Markup.OneImage | backend/src/renderer_typst.py:76-99 | one image between two texts is found as such |
| Markup.NormalizePath | backend/src/renderer_typst.py:82-85 | a normalised path has no backslash |
| Markup.OutputPathRelative | backend/src/renderer_typst.py:82-85 | a path under /data/output/ becomes relative to it |
| Markup.UnitTitle | backend/src/renderer_typst.py:203-211 | "UNIT n" is skipped exactly when n is not 1-5 or I-V |
| Markup.CommunityIsUnitTitle | backend/src/renderer_typst.py:203 | "Community" is taken for a unit title, because the test is a substring test on the upper-cased title |
| Markup.DropProblemPrefix | backend/src/renderer_typst.py:149-150 | a repeated "Problem Statement:" label is removed, in any case |
| Typst.EscapeTypst | backend/src/renderer_typst.py:4-25 | escaping never shortens and maps empty to empty |
| Typst.EscapeRoundTrip | backend/src/renderer_typst.py:4-25 | reading the escaped text back gives the original |
| Typst.EscapePlain | backend/src/renderer_typst.py:12-24 | text without special characters is unchanged |
| Typst.EscapeOfStr | backend/src/renderer_typst.py:8-24 | on a string, the value form escapes it character by character |
| Typst.MathSplitRebuild | backend/src/renderer_typst.py:39-40 | the math split spells out the text |
| Typst.MixedPlain | backend/src/renderer_typst.py:54-58 | text without "$" is escaped as a whole |
| Typst.MixedInline | backend/src/renderer_typst.py:50-53 | `$x$` stays inline math with its content stripped |
| Typst.MixedDisplay | backend/src/renderer_typst.py:47-49 | `$$x$$` becomes display math with its content stripped |
| Typst.ImageBetweenTexts | backend/src/renderer_typst.py:76-101 | an image between texts renders as text, figure, text |
| Typst.HeadingMarker | backend/src/renderer_typst.py:112-118 | a heading is level "=" signs, a space, the text and a newline |
| Typst.EquationLayers | backend/src/renderer_typst.py:129-142 | `$$m$$`, `$m$` and bare m all render as the same display math |
| Typst.RenderList | backend/src/renderer_typst.py:177-185 | one "- " line per item, or the exception of the first bad item |
| Typst.ListShape | backend/src/renderer_typst.py:177-185 | a list is its item lines, each ending in a newline |
| Typst.RenderSteps | backend/src/renderer_typst.py:160-171 | the nested loop's lines, or the exception of the first bad step |
| Typst.RenderSection | backend/src/renderer_typst.py:104-187 | the method's loops compute the section renderer |
| Typst.EmptyOrUnknown | backend/src/renderer_typst.py:104-187 | an empty section or one of unknown type renders as nothing |
| Typst.RenderPage | backend/src/renderer_typst.py:190-223 | the method's loop computes the page renderer |
| Typst.RenderSections | backend/src/renderer_typst.py:220-221 | each section rendered in order |
| Typst.UnitPageSkipped | backend/src/renderer_typst.py:200-211 | a unit past the fifth renders as nothing |
| Typst.UnitPageBanner | backend/src/renderer_typst.py:200-214 | a kept unit opens with the centred banner |
| Typst.UntitledPage | backend/src/renderer_typst.py:194-223 | an untitled chapter is its sections joined by newlines |
| Typst.NoFence | backend/src/renderer_typst.py:236-240 | removing every "```" leaves none |
| Typst.Sanitize | backend/src/renderer_typst.py:226-242 | no non-breaking space, zero-width space or code fence remains |
| Latex.EscapeLatexEscaped | backend/src/renderer_latex.py:5-60 | every special character of the output is escaped |
| Latex.EscapeLatexPlain | backend/src/renderer_latex.py:5-60 | text without characters to escape only has its \item turned into bullets |
| Latex.ItemBecomesBullet | backend/src/renderer_latex.py:5-60 | a lone \item becomes a bullet |
| Latex.BalanceNet | backend/src/renderer_latex.py:318-333 | after balancing the unescaped braces match, except after a trailing backslash |
| Latex.BalanceKeepsText | backend/src/renderer_latex.py:318-333 | balancing only adds braces at the ends |
| Latex.ImageBetweenTextsLatex | backend/src/renderer_latex.py:406-447 | an image between texts renders as text, figure, text |
| Latex.FigurePath | backend/src/renderer_latex.py:406-447 | the figure uses the normalised path |
| Latex.HeadingLevels | backend/src/renderer_latex.py:458-468 | levels 1 to 3 give `\chapter*`, `\section*` and `\subsection*`, each with a contents line; level 4 and above a `\subsubsection*` without one; 0 and below nothing |
| Latex.EmptyOrUnknownL | backend/src/renderer_latex.py:450-534 | an empty section or one of unknown type renders as nothing |
| Latex.ListShapeLatex | backend/src/renderer_latex.py:521-532 | a list is an itemize holding one line per item, in order |
| Latex.RenderItems | backend/src/renderer_latex.py:521-532 | the item loop's lines, or the exception of the first bad item |
| Latex.RenderStepsL | backend/src/renderer_latex.py:485-519 | the nested loop's lines, or the exception of the first bad step |
| Latex.ExampleTitleEscaped | backend/src/renderer_latex.py:485-519 | the example title is escaped, so every special character carries a backslash |
| Latex.EquationBalanced | backend/src/renderer_latex.py:480-482 | an equation is its balanced source in an equation environment, whose braces then match except after a trailing backslash |
| Latex.RenderSectionL | backend/src/renderer_latex.py:450-534 | the method's loops compute the section renderer |
| Latex.RenderPageL | backend/src/renderer_latex.py:537-572 | the method's loop computes the page renderer |
| Latex.UnitPageSkippedL | backend/src/renderer_latex.py:537-572 | a unit past the fifth renders as nothing |
| Latex.UnitPagePart | backend/src/renderer_latex.py:537-572 | a kept unit opens with its \part line |
| Latex.ChapterTitle | backend/src/renderer_latex.py:537-572 | any other title opens with \chapter* |
| Latex.ListDepthPass | backend/src/renderer_latex.py:153-166 | the loop with its depth counter computes the list pass |
| Latex.ListPassAt | backend/src/renderer_latex.py:153-166 | each line is fixed according to the list depth after it |
| Latex.ListPassNoItems | backend/src/renderer_latex.py:153-166 | text without \item is unchanged |
| Latex.StrayItemsBulleted | backend/src/renderer_latex.py:153-166 | a stray \item outside any list becomes a bullet |
| Latex.InsideListKept | backend/src/renderer_latex.py:153-166 | an \item inside a list is kept |
| Latex.EnvStackPass | backend/src/renderer_latex.py:168-188 | the loop with its stack computes the environment pass |
| Latex.ClosePops | backend/src/renderer_latex.py:168-188 | closing pops that many environments, innermost first, and stops at empty |
| Latex.CloseEmpty | backend/src/renderer_latex.py:168-188 | an \end with nothing open is left as it is |
| Latex.MismatchRenamed | backend/src/renderer_latex.py:168-188 | a mismatched \end is renamed to the open environment |
| Latex.WrongEndRenamed | backend/src/renderer_latex.py:176-186 | with y open above z, the line `\end{y}\end{y}` becomes `\end{z}\end{y}`: the rename hits the first `\end{y}`, which had matched |
| Latex.MatchKept | backend/src/renderer_latex.py:168-188 | a matching \end is kept |
| Latex.StrayEndKept | backend/src/renderer_latex.py:168-188 | a stray \end is kept |
| Latex.EnvPassKeeps | backend/src/renderer_latex.py:168-188 | a line without \end is unchanged |
| Latex.SanitizeStructure | backend/src/renderer_latex.py:136-249 | the list pass and then the environment pass, over the lines |
| Latex.StructureUnchanged | backend/src/renderer_latex.py:136-249 | text without \item or \end is unchanged |
| Latex.TableChunksRebuild | backend/src/renderer_latex.py:668-697 | the table split spells out the text |
| Latex.TableChunksShape | backend/src/renderer_latex.py:668-697 | every table piece is delimited by its tabular commands |
| Latex.NoEmptyTableUnchanged | backend/src/renderer_latex.py:668-697 | text without an empty table is unchanged |
| Latex.ChunksOutShorter | backend/src/renderer_latex.py:668-697 | dropping empty tables never lengthens the text |
| Placeholder.BlankNoWords | backend/src/placeholder_generator.py:98-99 | whitespace alone has no words |
| Placeholder.WrapText | backend/src/placeholder_generator.py:97-111 | the greedy wrap of the description's words |
| Placeholder.WrapLinesSound | backend/src/placeholder_generator.py:98-111 | every line is non-empty and fits or is one long word, and the lines hold the words in order |
| Placeholder.WrapFits | backend/src/placeholder_generator.py:98-111 | when every word fits, every line fits |
| Placeholder.WrapBlank | backend/src/placeholder_generator.py:99-111 | a blank description gives no lines |
| Placeholder.ColorsCycle | backend/src/placeholder_generator.py:12-19 | the colour schemes repeat every six images and consecutive backgrounds differ |
| Placeholder.PlaceholderGenerator.constructor | backend/src/placeholder_generator.py:21-22 | the colour index starts at 0 |
| Placeholder.PlaceholderGenerator.GenerateImage | backend/src/placeholder_generator.py:24-95 | the image uses the current scheme and the first four wrapped lines, and the index advances |
| Placeholder.TwoImages | backend/src/placeholder_generator.py:33-34 | two images in a row get different backgrounds |
| Placeholder.Prefix4 | backend/src/placeholder_generator.py:80 | at most the first four lines are drawn |

### Where the code does something its design evidently did not intend

These are modelled as written, and each has a lemma that exhibits it.

- **`analyst_node` never produces a plan.** The request reads `provider`, a name that is not bound in the function. The resulting NameError is not a network error, so it is re-raised and reported as an API error. See `Agents.AnalystNode` and `Agents.UnboundProviderIsNotNetwork`.
- **`drafter_node` discards a successful reply.** The code that stores the reply sits after a `raise` in the handler, so every return gives back the original chunk. See `Agents.DrafterNode`.
- **`publish` reaches at most one subscriber.** The first enqueue raises a TypeError, which ends the loop. See `Sse.Manager.Publish`, `Sse.PublishReachesOne` and `Sse.SecondSubscriberMissesEvent`.
- **Phase 4 falls back at every checkpoint of a fresh run.** A completion that writes a checkpoint (every 50th, and the last) reads `existing_sections`, which is unbound when no structure file was loaded. The NameError turns that chunk into a fallback node although it was structured. See `Orchestrator.StructureOne` and `Orchestrator.StructurePhase`.
- **The chapter split is case-sensitive.** "chapter 2" at a line start is never a cut. See `Chunker.ChapterCutsAreCapitalised`.
- **Any title containing "unit" is set as a unit banner.** The test looks for "UNIT" in the upper-cased title, so "Community" counts too. See `Markup.CommunityIsUnitTitle`.
- **`get_logs` can stall on a negative cursor.** With more than 49 lines, a negative cursor returns nothing and keeps has_more set. See `Api.NegativeCursor`.
- **Brace balancing can be off by one.** When the text ends with a backslash, the first appended closing brace is read as escaped. See `Latex.BalanceNet`.
- **The environment pass can rename the wrong `\end`.** It renames the first `\end{y}` of the line, which may be an earlier one than the one it is closing. See `Latex.WrongEndRenamed`.
- **`strip_syllabus_restarts` skips some documents.** A document whose first line holds a `\chapter` is left untouched, like a document without chapters. See `PostProcessor.StripSyllabusRestarts`.
- **A structurer message is unreachable.** The structurer loop always returns on its last attempt, so "Failed after 3 retries" is never returned. See `Structurer.StructurerNode`.
- **`_select_model` keeps an empty DEFAULT_MODEL,** where `_get_model` falls back to the default. See `Agents.EmptyDefaultModelSelected`.

## Left out

- Remote model calls, `json.loads`, the retry processor and the structurer are oracles (functions of the attempt number). Sleeps and timeouts are recorded delays or are absent.
- asyncio concurrency: the swarms and the SSE generator run as sequential loops in index order. Interleavings are not modelled.
- The filesystem and SQLite are maps and sequences of rows. File encodings, `os.makedirs`, locks and the thread that runs the child process are not modelled.
- Floating point: the progress percentage and ETA regexes and arithmetic (backend/server/api.py:400-433) and `normalize_scientific_notation` are left out.
- Api.ScanOutput: the per-line status emit for a line without a progress marker (backend/server/api.py:434-444) is not modelled. It sets the job message to `line[:100]` and, through `emit`, appends a second INFO log entry with source "Phase n" for that line, so the real log holds each such line twice.
- The exception and timeout handlers of the pipeline runner (backend/server/api.py:473-480) and the environment set-up of the child process are left out. The SSE publish from `emit` is left out: it goes through `Sse.Manager.BroadcastSync`.
- Regular expressions are restated as functions for the patterns modelled. The other LaTeX sanitize passes, `prune_index_tags`, `sanitize_latex_commands`, `generate_index_tags`, `strip_empty_pages` and `strip_leaked_scaffolding` are not part of this model.
- Latex: `render_mixed_content_latex` is a parameter `mixed` of the renderers.
- Latex.BalanceNet: brace balance is stated for equations only, not for list items.
- Case folding, `\w` and digits are ASCII only, and `str()` of floats and containers is not modelled.
- BalanceOf: a non-empty list in a "latex" field whose items hold as many `{` and `\}` as `}` and `\{` is returned unchanged by `auto_balance_braces`, and the LaTeX renderers (backend/src/renderer_latex.py:480, 514) then print it with `str()`. The model gives None for it, and so for the section and the page, because `str()` of a list is not modelled.
- Orchestrator.CompletedPhase: `load_state` catches only `json.JSONDecodeError` (backend/main.py:72-79). An `OSError` or `UnicodeDecodeError` from reading the file, a JSON value that is not an object (`.get` raises at backend/main.py:829-830) and a non-integer `completed_phase` (`+ 1` raises) all end the run with an exception; the checkpoint datatype has no value for them.
- Timestamps: each call reads the clock once in the model. The source calls `time.time()` separately for a new job's `created_at` and `updated_at` (Jobs.JobStore.Create), and `DeadLetter.Queue.RetryAll` takes `datetime.now()` per resolved row; the model gives all of them one `now`.
- FromDict: `Job(**d)` does not check value types, so the source loads a dict whose field has the wrong type (say a string `current_phase`). The Job datatype is typed, so the model rejects such a dict with None.
- PostProcessor.MergeMicroChapters: `_chapter_text_len` is an uninterpreted size parameter, and the merge does not model that pass 1 mutates the caller's chapter dicts in place.
- PostProcessor.Deduplicate: `SequenceMatcher.ratio` is an uninterpreted parameter.
- PostProcessor.StripSyllabusRestarts: the five restart patterns are one parameter `isRestart`.
- PostProcessor.Chapter: a chapter's "sections" is always a list of dicts. A missing "sections" key reads as the empty list, so the model does not tell it apart from an empty list, nor does it note that `merge_micro_chapters` writes the key back (backend/src/post_processor.py:111, 134). A non-list `sections` or a non-dict section, which raises AttributeError or TypeError in the source (backend/src/post_processor.py:109-111, 219, 241-243), is not representable.
- Chunker.SplitByLength: `max_chars` is required to be at least 1; with 0 the source's slicing step raises. MAX_CHUNK_CHARS is read from the environment, with default 800.
- DeadLetter.Queue.RetryAll: the processor's outcome is keyed by chunk id, where the source passes the chunk text.
- Placeholder.PlaceholderGenerator.GenerateImage: PIL drawing (fonts, boxes, lines, saving the file) is not modelled; the result records the colours and lines drawn.
- The CLI entry points, the frontend and the build scripts are not part of this model.
