// The per-chunk expansion graph: analyst, then drafter and critic in a loop
// that the router closes.  The graph library's scheduler is the loop of
// RunGraph; each node's partial update is merged into the state record.
module ExpansionGraph {
  import opened TextUtil
  import opened Agents

  const MaxRevisions: int := 3

  /** The graph state; every key is present once the orchestrator starts a run. */
  datatype BookState = BookState(
    currentChunk: string,
    analysis: string,
    expandedChunk: string,
    feedback: string,
    revisionCount: int,
    targetChars: int)

  datatype Route = EndRoute | ToDrafter

  /** _should_revise.  An absent feedback reads as "APPROVED" and an absent
      count as 0.  Approval is checked case-insensitively and before the cap. */
  function ShouldRevise(feedback: Option<string>, revisionCount: Option<int>): (r: Route)
    ensures StartsWith(Upper(OrElse(feedback, Approved)), Approved) ==> r == EndRoute
    ensures OrElse(revisionCount, 0) >= MaxRevisions ==> r == EndRoute
    ensures r == EndRoute ==>
      StartsWith(Upper(OrElse(feedback, Approved)), Approved) || OrElse(revisionCount, 0) >= MaxRevisions
  {
    var fb := if feedback.Some? then feedback.value else Approved;
    var rc := if revisionCount.Some? then revisionCount.value else 0;
    if StartsWith(Upper(fb), Approved) then EndRoute
    else if rc >= MaxRevisions then EndRoute
    else ToDrafter
  }

  function OrElse<T>(o: Option<T>, d: T): T
  {
    if o.Some? then o.value else d
  }

  /** A state without feedback ends the run. */
  lemma MissingFeedbackEnds(revisionCount: Option<int>)
    ensures ShouldRevise(None, revisionCount) == EndRoute
  {
    UpperApproved();
  }

  lemma UpperApproved()
    ensures StartsWith(Upper(Approved), Approved)
  {
    assert Upper(Approved) == Approved;
  }

  /** Low-effort feedback never reads as an approval, whatever the case. */
  lemma LowEffortIsNotApproval(length: nat, target: int)
    ensures !StartsWith(Upper(LowEffortFeedback(length, target)), Approved)
  {
    var fb := LowEffortFeedback(length, target);
    assert fb[..|LowEffortTag|] == LowEffortTag;
    assert fb[0] == 'L';
    assert Upper(fb)[0] == 'L';
  }

  /** Below the cap, low-effort feedback sends the draft back. */
  lemma LowEffortRevises(length: nat, target: int, revisionCount: int)
    requires revisionCount < MaxRevisions
    ensures ShouldRevise(Some(LowEffortFeedback(length, target)), Some(revisionCount)) == ToDrafter
  {
    LowEffortIsNotApproval(length, target);
  }

  /** One pass through drafter and critic after a failed analysis: the
      drafter returns the chunk with the count one higher, and the critic's
      feedback replaces the old one. */
  method DraftAndReview(state: BookState, env: Env, drafterOracle: nat -> Attempt, criticOracle: nat -> Attempt)
    returns (next: BookState, calls: nat)
    requires StartsWith(state.analysis, AnalystError)
    ensures next == state.(expandedChunk := state.currentChunk, revisionCount := state.revisionCount + 1,
                           feedback := next.feedback)
    ensures calls <= CriticRetries
    ensures !IsBlank(state.currentChunk) && |state.currentChunk| < state.targetChars ==>
      calls == 0 && next.feedback == LowEffortFeedback(|state.currentChunk|, state.targetChars)
  {
    var draft, draftCalls := DrafterNode(state.currentChunk, state.analysis, state.revisionCount, env, drafterOracle);
    // The failed analysis makes the drafter return at once.
    if draft.Raised? {
      assert false;
    }
    next := state.(expandedChunk := draft.expanded, revisionCount := draft.revisionCount);
    var feedback;
    feedback, calls := CriticNode(next.expandedChunk, next.currentChunk, next.targetChars, env, criticOracle);
    next := next.(feedback := feedback);
  }

  /** A non-blank chunk shorter than its target. */
  predicate LowEffort(chunk: string, target: int)
  {
    !IsBlank(chunk) && |chunk| < target
  }

  /** What holds of the graph loop after `drafts` rounds that ended on
      `route`. */
  predicate RunSoFar(initial: BookState, chunk: string, analysis: string,
                     state: BookState, drafts: nat, remoteCalls: nat, route: Route)
  {
    var lowEffort := LowEffort(chunk, initial.targetChars);
    state.currentChunk == chunk && state.targetChars == initial.targetChars &&
    state.analysis == analysis &&
    state.revisionCount == initial.revisionCount + drafts &&
    (drafts > 0 ==> state.expandedChunk == chunk) &&
    (route == ToDrafter && drafts > 0 ==> state.revisionCount < MaxRevisions) &&
    (route == EndRoute ==>
      drafts > 0 && ShouldRevise(Some(state.feedback), Some(state.revisionCount)) == EndRoute) &&
    (initial.revisionCount >= MaxRevisions ==> drafts <= 1) &&
    (initial.revisionCount < MaxRevisions ==> state.revisionCount <= MaxRevisions) &&
    remoteCalls <= CriticRetries * drafts &&
    (lowEffort ==> remoteCalls == 0) &&
    (lowEffort && drafts > 0 ==> state.feedback == LowEffortFeedback(|chunk|, initial.targetChars)) &&
    (lowEffort && route == EndRoute && 0 <= initial.revisionCount ==> state.revisionCount >= MaxRevisions)
  }

  /** One more drafter and critic round keeps RunSoFar, with the route the
      router picks for the new state. */
  lemma {:induction false} RunStep(initial: BookState, chunk: string, analysis: string,
                                   state: BookState, drafts: nat, remoteCalls: nat, next: BookState, calls: nat)
    requires RunSoFar(initial, chunk, analysis, state, drafts, remoteCalls, ToDrafter)
    requires next == state.(expandedChunk := state.currentChunk, revisionCount := state.revisionCount + 1,
                            feedback := next.feedback)
    requires calls <= CriticRetries
    requires LowEffort(state.currentChunk, state.targetChars) ==>
      calls == 0 && next.feedback == LowEffortFeedback(|state.currentChunk|, state.targetChars)
    ensures RunSoFar(initial, chunk, analysis, next, drafts + 1, remoteCalls + calls,
                     ShouldRevise(Some(next.feedback), Some(next.revisionCount)))
  {
    if LowEffort(chunk, initial.targetChars) && next.revisionCount < MaxRevisions {
      LowEffortRevises(|chunk|, initial.targetChars, next.revisionCount);
    }
  }

  /** One graph invocation: the analyst once, then drafter and critic until the
      router says END.  `drafterService(k)` and `criticService(k)` are the
      attempt oracles of the k-th drafter and critic run.  The analyst always
      reports an error (its request reads an unbound name), so every drafter
      run returns the chunk unchanged with no remote call, and the loop ends
      by approval or at the revision cap.  A non-blank chunk shorter than its
      target is rejected by the critic's local gate every time, so a run from
      count 0 drafts exactly three times and makes no remote call at all. */
  method RunGraph(initial: BookState, env: Env,
                  drafterService: nat -> nat -> Attempt, criticService: nat -> nat -> Attempt)
    returns (final: BookState, drafts: nat, remoteCalls: nat)
    ensures final.currentChunk == initial.currentChunk && final.targetChars == initial.targetChars
    ensures StartsWith(final.analysis, AnalystError)
    ensures final.expandedChunk == initial.currentChunk
    ensures drafts >= 1 && final.revisionCount == initial.revisionCount + drafts
    ensures initial.revisionCount < MaxRevisions ==> final.revisionCount <= MaxRevisions
    ensures initial.revisionCount >= MaxRevisions ==> drafts == 1
    ensures ShouldRevise(Some(final.feedback), Some(final.revisionCount)) == EndRoute
    ensures remoteCalls <= CriticRetries * drafts
    ensures (LowEffort(initial.currentChunk, initial.targetChars) && 0 <= initial.revisionCount < MaxRevisions) ==>
      final.revisionCount == MaxRevisions && remoteCalls == 0 &&
      final.feedback == LowEffortFeedback(|initial.currentChunk|, initial.targetChars)
  {
    var chunk := initial.currentChunk;
    var analysis := AnalystNode(chunk, env);
    var state := initial.(analysis := analysis);
    drafts := 0;
    remoteCalls := 0;
    var route := ToDrafter;
    while route == ToDrafter
      invariant RunSoFar(initial, chunk, analysis, state, drafts, remoteCalls, route)
      decreases if route == EndRoute then 0
                else if drafts == 0 then
                  (if initial.revisionCount < MaxRevisions then MaxRevisions - initial.revisionCount + 1 else 1)
                else MaxRevisions - state.revisionCount
    {
      var next, criticCalls := DraftAndReview(state, env, drafterService(drafts), criticService(drafts));
      RunStep(initial, chunk, analysis, state, drafts, remoteCalls, next, criticCalls);
      state := next;
      drafts := drafts + 1;
      remoteCalls := remoteCalls + criticCalls;
      route := ShouldRevise(Some(state.feedback), Some(state.revisionCount));
    }
    final := state;
  }
}
