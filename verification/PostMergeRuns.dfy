/** What every sequence of post-merge events keeps. */
module PostMergeRuns {
  import opened Prelude
  import opened PostMerge

  /** A refused event leaves the durable state alone. */
  function StepOrStay(s: State, e: Event): State {
    match Advance(s, e)
    case Ok(t) => t
    case Err(_) => s
  }

  /** The state after a sequence of events. */
  function After(s: State, events: seq<Event>): State
    decreases |events|
  {
    if events == [] then s else After(StepOrStay(s, events[0]), events[1..])
  }

  // ---- the invariant of reachable states

  predicate Linked(s: State) {
    s.evidence.close.outcome != Some(NotApplicable)
  }

  /** The recorded push shares neither identity with the most recent failed push. */
  predicate PushIsFresh(e: Evidence) {
    e.rebuild.failedIntent.Some? ==>
      && e.push.intentId.Some? && e.push.intentId != e.rebuild.failedIntent
      && e.push.journalId.Some? && e.push.journalId != e.rebuild.failedJournal
  }

  /** No changelog generation and no rebuild has been recorded. */
  predicate BeforeChangelog(e: Evidence) {
    e.log.generation.None? && e.rebuild.reason.None? && e.rebuild.failedIntent.None?
  }

  predicate IssueClosed(e: Evidence) {
    e.close.outcome == Some(Closed) || e.close.outcome == Some(AlreadyClosed)
  }

  /** One commit is the changelog commit, the bookkeeping commit and the pushed commit. */
  predicate OneCommit(e: Evidence) {
    e.push.pushedCommit.Some? && e.push.pushedCommit == e.push.bookkeepingCommit == e.log.commit
  }

  ghost predicate Reachable(s: State) {
    var e := s.evidence;
    var rank := Rank(s.phase);
    && !s.phase.NotRequired?
    && (s.phase.NotStarted? ==> e == NOTHING)
    && Adequate(s)
    && (e.judgment.decision.None? ==> e.judgment == NOTHING.judgment)
    && (e.rebuild.failedIntent.Some? <==> e.rebuild.failedJournal.Some?)
    && (rank < 2 ==> e.merge.parentCommit.None?)
    && (rank < 3 ==> e.close.issueId.None? && e.close.intentId.None?)
    && (rank < 4 ==> e.close.outcome.None? && e.close.journalId.None? && e.close.observedIssueId.None?)
    && (rank < 5 ==> BeforeChangelog(e))
    && (4 <= rank <= 7 ==> IssueClosed(e))
    && (e.log.generation.Some? ==> e.log.generation.value >= 0)
    && (s.phase.ParentPushPending? ==> PushIsFresh(e))
    && (s.phase.Complete? && Linked(s) ==> IssueClosed(e) && PushIsFresh(e) && OneCommit(e))
    && (s.phase.Complete? && !Linked(s) ==> e.close.issueId.None? && BeforeChangelog(e))
  }

  // ---- what one step keeps

  predicate Kept<T(==)>(a: Option<T>, b: Option<T>) {
    a.Some? ==> b == a
  }

  predicate Stays<T>(a: Option<T>, b: Option<T>) {
    a.Some? ==> b.Some?
  }

  /** The merge, parent-sync and issue identities are never rewritten; only a push may rebind the lane epoch. */
  predicate IdentityKept(a: Evidence, b: Evidence) {
    && Kept(a.merge.childId, b.merge.childId) && Kept(a.merge.repository, b.merge.repository)
    && Kept(a.merge.parentBranch, b.merge.parentBranch) && Kept(a.merge.prNumber, b.merge.prNumber)
    && Kept(a.merge.headSha, b.merge.headSha) && Kept(a.merge.journalId, b.merge.journalId)
    && Kept(a.merge.parentCommit, b.merge.parentCommit)
    && Kept(a.close.issueId, b.close.issueId) && Kept(a.close.intentId, b.close.intentId)
    && Kept(a.close.journalId, b.close.journalId) && Kept(a.close.observedIssueId, b.close.observedIssueId)
  }

  /** No evidence key is dropped. */
  predicate NothingDropped(a: Evidence, b: Evidence) {
    && Stays(a.merge.laneEpoch, b.merge.laneEpoch)
    && Stays(a.close.attempt, b.close.attempt) && Stays(a.close.outcome, b.close.outcome)
    && Stays(a.close.observedStatus, b.close.observedStatus)
    && Stays(a.close.failureGeneration, b.close.failureGeneration)
    && Stays(a.close.failureAttempt, b.close.failureAttempt) && a.close.failures.Keys <= b.close.failures.Keys
    && Stays(a.close.retryGeneration, b.close.retryGeneration)
    && Stays(a.close.retryIssueId, b.close.retryIssueId) && Stays(a.close.retryStatus, b.close.retryStatus)
    && Kept(a.judgment.intentId, b.judgment.intentId) && Kept(a.judgment.decision, b.judgment.decision)
    && Kept(a.judgment.reason, b.judgment.reason) && Kept(a.judgment.tokens, b.judgment.tokens)
    && Stays(a.judgment.model, b.judgment.model)
    && Stays(a.judgment.section, b.judgment.section) && Stays(a.judgment.entry, b.judgment.entry)
    && Stays(a.judgment.outcome, b.judgment.outcome) && Stays(a.judgment.outcomeDetail, b.judgment.outcomeDetail)
    && Stays(a.log.intentId, b.log.intentId) && Stays(a.log.generation, b.log.generation)
    && Stays(a.log.commit, b.log.commit)
    && Stays(a.push.intentId, b.push.intentId) && Stays(a.push.journalId, b.push.journalId)
    && Stays(a.push.expectedBase, b.push.expectedBase) && Stays(a.push.receiptId, b.push.receiptId)
    && Stays(a.push.pushedCommit, b.push.pushedCommit) && Stays(a.push.bookkeepingCommit, b.push.bookkeepingCommit)
    && Stays(a.push.remoteHead, b.push.remoteHead) && Stays(a.push.ancestryProof, b.push.ancestryProof)
    && Stays(a.rebuild.failedIntent, b.rebuild.failedIntent) && Stays(a.rebuild.failedJournal, b.rebuild.failedJournal)
    && Stays(a.rebuild.failedResult, b.rebuild.failedResult) && Stays(a.rebuild.remoteHead, b.rebuild.remoteHead)
    && Stays(a.rebuild.newBase, b.rebuild.newBase) && Stays(a.rebuild.ancestorProof, b.rebuild.ancestorProof)
    && Stays(a.rebuild.reason, b.rebuild.reason) && (a.rebuild.applied ==> b.rebuild.applied)
    && Stays(a.rebuild.commit, b.rebuild.commit)
    && a.results == b.results
  }

  function Generation(s: State): int {
    Counter(s.evidence.log.generation, 0)
  }

  /** Changelog generation first, phase second. */
  predicate NotBehind(a: State, b: State) {
    Generation(a) < Generation(b) || (Generation(a) == Generation(b) && Rank(a.phase) <= Rank(b.phase))
  }

  /** The phase edges a step may take. */
  predicate Edge(a: Phase, b: Phase) {
    match a
    case NotStarted => b.RemoteMergeAdopted?
    case RemoteMergeAdopted => b.ParentBranchSynced?
    case ParentBranchSynced => b.IssueClosePending? || b.Complete?
    case IssueClosePending => b.IssueCloseConfirmed?
    case IssueCloseConfirmed => b.ChangelogPending?
    case ChangelogPending => b.ChangelogCommitted?
    case ChangelogCommitted => b.ParentPushPending?
    case ParentPushPending => b.Complete? || b.ChangelogPending?
    case Complete => false
    case NotRequired => false
  }

  /**
   The contract of every step: the constructor never refuses, the new state is reachable and lies on a
   legal edge, no key is lost and no identity rewritten, and only a rebuild goes back, to a newer generation.
   */
  ghost predicate StepContract(s: State, e: Event, r: Outcome) {
    && r != Err(Incomplete)
    && (r.Ok? ==>
          var t := r.value;
          && Reachable(t)
          && IdentityKept(s.evidence, t.evidence) && NothingDropped(s.evidence, t.evidence) && NotBehind(s, t)
          && (t.phase != s.phase ==> Edge(s.phase, t.phase))
          && (Rank(t.phase) < Rank(s.phase) <==> e.RebuildRequested?)
          && (e.RebuildRequested? ==> Generation(t) > Generation(s))
          && (!Linked(t) && Linked(s) <==> s.phase.ParentBranchSynced? && t.phase.Complete?))
  }

  lemma AdoptMergeKeeps(s: State, e: Event)
    requires Reachable(s) && e.MergeAdopted?
    ensures StepContract(s, e, Dispatch(s, e))
  {
  }

  lemma SyncBranchKeeps(s: State, e: Event)
    requires Reachable(s) && e.BranchSynced?
    ensures StepContract(s, e, Dispatch(s, e))
  {
  }

  lemma PendCloseKeeps(s: State, e: Event)
    requires Reachable(s) && e.ClosePending?
    ensures StepContract(s, e, Dispatch(s, e))
  {
  }

  lemma JudgeUnlinkedKeeps(s: State, e: Event)
    requires Reachable(s) && e.UnlinkedJudged?
    ensures StepContract(s, e, Dispatch(s, e))
  {
  }

  lemma FinishUnlinkedKeeps(s: State, e: Event)
    requires Reachable(s) && e.NotApplicableDone?
    ensures StepContract(s, e, Dispatch(s, e))
  {
  }

  lemma ConfirmCloseKeeps(s: State, e: Event)
    requires Reachable(s) && e.CloseConfirmed?
    ensures StepContract(s, e, Dispatch(s, e))
  {
  }

  lemma AdoptClosedKeeps(s: State, e: Event)
    requires Reachable(s) && e.CloseAlreadyClosed?
    ensures StepContract(s, e, Dispatch(s, e))
  {
  }

  /** A step that adds to the close evidence of a pending close, and to nothing else. */
  lemma CloseAdditionKeeps(s: State, e: Event, close: CloseEvidence)
    requires Reachable(s) && s.phase.IssueClosePending? && !e.RebuildRequested?
    requires var c := s.evidence.close;
             && close.issueId == c.issueId && close.intentId == c.intentId && close.outcome == c.outcome
             && close.journalId == c.journalId && close.observedIssueId == c.observedIssueId
             && close.observedStatus == c.observedStatus
    requires NothingDropped(s.evidence, s.evidence.(close := close))
    ensures StepContract(s, e, Construct(IssueClosePending, s.evidence.(close := close)))
  {
  }

  lemma RecordCloseFailureKeeps(s: State, e: Event)
    requires Reachable(s) && e.CloseFailed?
    ensures StepContract(s, e, Dispatch(s, e))
  {
    if RecordCloseFailure(s, e).Ok? {
      CloseAdditionKeeps(s, e, RecordCloseFailure(s, e).value.evidence.close);
    }
    hide Reachable, Adequate;
  }

  lemma AuthorizeCloseRetryKeeps(s: State, e: Event)
    requires Reachable(s) && e.CloseRetryAuthorized?
    ensures StepContract(s, e, Dispatch(s, e))
  {
  }

  lemma ReplaceChangelogIntentKeeps(s: State, e: Event)
    requires Reachable(s) && e.LogPending? && s.phase.ChangelogPending?
    requires Dispatch(s, e) != Ok(s)
    ensures StepContract(s, e, Dispatch(s, e))
  {
  }

  lemma PendChangelogKeeps(s: State, e: Event)
    requires Reachable(s) && e.LogPending?
    ensures StepContract(s, e, Dispatch(s, e))
  {
    if s.phase.ChangelogPending? && Dispatch(s, e) != Ok(s) { ReplaceChangelogIntentKeeps(s, e); }
  }

  lemma CommitRebuiltChangelogKeeps(s: State, e: Event)
    requires Reachable(s) && e.LogCommitted?
    requires s.phase.ChangelogPending? && Has(s.evidence.rebuild.reason) && !s.evidence.rebuild.applied
    ensures StepContract(s, e, Dispatch(s, e))
  {
  }

  lemma CommitChangelogKeeps(s: State, e: Event)
    requires Reachable(s) && e.LogCommitted?
    ensures StepContract(s, e, Dispatch(s, e))
  {
    if s.phase.ChangelogPending? && Has(s.evidence.rebuild.reason) && !s.evidence.rebuild.applied {
      CommitRebuiltChangelogKeeps(s, e);
    }
  }

  lemma PendPushKeeps(s: State, e: Event)
    requires Reachable(s) && e.PushPending?
    ensures StepContract(s, e, Dispatch(s, e))
  {
  }

  lemma CompletePushKeeps(s: State, e: Event)
    requires Reachable(s) && e.PushComplete?
    ensures StepContract(s, e, Dispatch(s, e))
  {
  }

  lemma RebuildKeeps(s: State, e: Event)
    requires Reachable(s) && e.RebuildRequested?
    ensures StepContract(s, e, Dispatch(s, e))
  {
  }

  lemma DispatchKeeps(s: State, e: Event)
    requires Reachable(s)
    ensures StepContract(s, e, Dispatch(s, e))
  {
    match e
    case MergeAdopted(_, _, _, _, _, _, _) => AdoptMergeKeeps(s, e);
    case BranchSynced(_, _, _) => SyncBranchKeeps(s, e);
    case ClosePending(_, _, _) => PendCloseKeeps(s, e);
    case CloseConfirmed(_, _, _, _) => ConfirmCloseKeeps(s, e);
    case CloseAlreadyClosed(_, _, _, _) => AdoptClosedKeeps(s, e);
    case CloseFailed(_, _, _, _, _, _, _) => RecordCloseFailureKeeps(s, e);
    case CloseRetryAuthorized(_, _, _, _, _, _) => AuthorizeCloseRetryKeeps(s, e);
    case UnlinkedJudged(_, _, _, _, _, _, _, _) => JudgeUnlinkedKeeps(s, e);
    case NotApplicableDone(_, _, _, _, _) => FinishUnlinkedKeeps(s, e);
    case LogPending(_, _, _) => PendChangelogKeeps(s, e);
    case LogCommitted(_, _, _) => CommitChangelogKeeps(s, e);
    case PushPending(_, _, _, _, _) => PendPushKeeps(s, e);
    case PushComplete(_, _, _, _, _) => CompletePushKeeps(s, e);
    case RebuildRequested(_, _, _, _, _, _, _, _, _) => RebuildKeeps(s, e);
  }

  lemma StepKeeps(s: State, e: Event)
    requires Reachable(s)
    ensures StepContract(s, e, Advance(s, e))
  {
    if s.phase.Complete? {
      assert Advance(s, e) == Ok(s) || Advance(s, e) == Err(Guard);
    } else {
      DispatchKeeps(s, e);
    }
  }

  lemma {:induction false} RunsAreReachable(s: State, events: seq<Event>)
    requires Reachable(s)
    ensures Reachable(After(s, events))
    decreases |events|
  {
    if events != [] {
      StepKeeps(s, events[0]);
      RunsAreReachable(StepOrStay(s, events[0]), events[1..]);
    }
  }

  /** No run from a fresh child ever trips the constructor, whatever event arrives next. */
  lemma NoRunIsRefusedByTheConstructor(events: seq<Event>, next: Event)
    ensures Advance(After(FRESH, events), next) != Err(Incomplete)
    ensures Adequate(After(FRESH, events))
  {
    RunsAreReachable(FRESH, events);
    StepKeeps(After(FRESH, events), next);
  }

  /** Along every run no evidence key is dropped, no identity is rewritten, and progress is lexicographic. */
  lemma {:induction false} RunsOnlyAdd(s: State, events: seq<Event>)
    requires Reachable(s)
    ensures IdentityKept(s.evidence, After(s, events).evidence) && NothingDropped(s.evidence, After(s, events).evidence)
    ensures NotBehind(s, After(s, events))
    decreases |events|
  {
    if events != [] {
      StepKeeps(s, events[0]);
      RunsOnlyAdd(StepOrStay(s, events[0]), events[1..]);
    }
  }

  // ---- redelivery

  /** The events that write close evidence. */
  predicate WritesClose(e: Event) {
    || e.MergeAdopted? || e.ClosePending? || e.CloseConfirmed? || e.CloseAlreadyClosed?
    || e.CloseFailed? || e.CloseRetryAuthorized? || e.NotApplicableDone?
  }

  /** The second delivery is absorbed, or refused for a retry authorization and a rebuild request. */
  predicate Redelivered(s: State, e: Event)
    requires Advance(s, e).Ok?
  {
    var t := Advance(s, e).value;
    Advance(t, e) == if e.CloseRetryAuthorized? || e.RebuildRequested? then Err(Guard) else Ok(t)
  }

  lemma RedeliveredCloseEvents(s: State, e: Event)
    requires Advance(s, e).Ok? && WritesClose(e)
    ensures Redelivered(s, e)
  {
  }

  lemma RedeliveredOtherEvents(s: State, e: Event)
    requires Advance(s, e).Ok? && !WritesClose(e)
    ensures Redelivered(s, e)
  {
  }

  /**
   Delivering an accepted event again changes nothing: twelve kinds are absorbed, and a retry
   authorization or a rebuild request is refused. This needs no assumption on the state.
   */
  lemma RedeliveryIsSafe(s: State, e: Event)
    requires Advance(s, e).Ok?
    ensures Redelivered(s, e)
  {
    if WritesClose(e) { RedeliveredCloseEvents(s, e); } else { RedeliveredOtherEvents(s, e); }
  }

  /** So a run in which any event is delivered twice in a row ends where the run without the copy ends. */
  lemma {:induction false} DuplicateDelivery(s: State, before: seq<Event>, e: Event, after: seq<Event>)
    ensures After(s, before + [e, e] + after) == After(s, before + [e] + after)
    decreases |before|
  {
    if before == [] {
      var once := StepOrStay(s, e);
      if Advance(s, e).Ok? { RedeliveryIsSafe(s, e); }
      assert ([] + [e, e] + after)[1..] == [e] + after;
      assert ([e] + after)[1..] == after;
      assert ([] + [e] + after)[1..] == after;
      assert StepOrStay(once, e) == once;
      assert After(once, [e] + after) == After(once, after);
    } else {
      assert (before + [e, e] + after)[1..] == before[1..] + [e, e] + after;
      assert (before + [e] + after)[1..] == before[1..] + [e] + after;
      DuplicateDelivery(StepOrStay(s, before[0]), before[1..], e, after);
    }
  }

  // ---- completion

  /** In every run a linked completion has its close, its receipt and one fresh pushed commit on record. */
  lemma CompletionIsRecorded(events: seq<Event>)
    requires After(FRESH, events).phase.Complete? && Linked(After(FRESH, events))
    ensures var e := After(FRESH, events).evidence;
            && IssueClosed(e) && OneCommit(e) && PushIsFresh(e) && Has(e.push.intentId) && Has(e.push.journalId)
            && Has(e.push.receiptId) && Has(e.push.remoteHead) && Has(e.push.ancestryProof)
  {
    RunsAreReachable(FRESH, events);
  }

  /** In every run an unlinked completion has a decision on record and never had an issue bound. */
  lemma {:induction false} UnlinkedCompletion(s: State, events: seq<Event>)
    requires Reachable(s)
    requires s.phase.Complete? && !Linked(s) ==> s.evidence.judgment.decision.Some?
    ensures var t := After(s, events);
            t.phase.Complete? && !Linked(t) ==>
              t.evidence.judgment.decision.Some? && t.evidence.close.issueId.None?
    decreases |events|
  {
    if events == [] {
    } else {
      StepKeeps(s, events[0]);
      UnlinkedCompletion(StepOrStay(s, events[0]), events[1..]);
    }
  }

  /** An accepted rebuild files every field of the failed attempt under its own key. */
  lemma RebuildFilesTheFailedAttempt(s: State, e: Event)
    requires e.RebuildRequested? && Advance(s, e).Ok?
    ensures var v := s.evidence; var t := Advance(s, e).value.evidence;
            && t.rebuild.failedIntent == v.push.intentId == Some(e.failedIntent)
            && t.rebuild.failedJournal == v.push.journalId == Some(e.failedJournal)
            && t.rebuild.failedResult == Some(e.failedResult)
            && t.rebuild.remoteHead == Some(e.remoteHead)
            && t.rebuild.newBase == t.push.expectedBase == Some(e.newBaseSha)
            && t.rebuild.ancestorProof == Some(e.ancestorProof)
            && t.rebuild.reason == Some(e.rebuildReason)
            && t.log.generation == Some(e.generation)
  {
  }

  /** Only a push receipt or an unlinked outcome completes a child. */
  lemma OnlyTwoEventsComplete(s: State, e: Event)
    requires !s.phase.Complete? && Advance(s, e).Ok? && Advance(s, e).value.phase.Complete?
    ensures e.PushComplete? || e.NotApplicableDone?
  {
  }

  /** After a completion, only a replay is answered; everything else is refused. */
  lemma CompleteIsFinal(s: State, e: Event)
    requires s.phase.Complete?
    ensures Advance(s, e) == Ok(s) || Advance(s, e) == Err(Guard)
  {
  }

  // ---- issue-close failures and retries

  /** Failure generations are numbered from one without gaps, and a retry answers one of them. */
  ghost predicate CloseBooks(c: CloseEvidence) {
    var generation := Counter(c.failureGeneration, 0);
    && generation >= 0
    && (forall g :: g in c.failures <==> 1 <= g <= generation)
    && (c.attempt.Some? ==> c.attempt.value >= 1)
    && (c.failureAttempt.Some? ==> c.attempt.Some? && 1 <= c.failureAttempt.value <= c.attempt.value)
    && (c.failureGeneration.Some? <==> c.failureAttempt.Some?)
    && (c.retryGeneration.Some? ==>
          && 1 <= c.retryGeneration.value <= generation
          && c.retryIssueId == c.issueId && c.issueId.Some?
          && (c.retryStatus == Some("open") || c.retryStatus == Some("in_progress")))
    && (c.attempt.Some? && c.attempt.value > 1 ==> c.retryGeneration.Some?)
    && (c.issueId.None? ==> c.failureGeneration.None? && c.retryGeneration.None? && c.attempt.None?)
    && (c.issueId.Some? ==> c.attempt.Some?)
  }

  lemma OthersKeepClose(s: State, e: Event)
    requires Advance(s, e).Ok? && !WritesClose(e)
    ensures Advance(s, e).value.evidence.close == s.evidence.close
  {
  }

  lemma CloseFailureBooks(s: State, e: Event)
    requires CloseBooks(s.evidence.close) && Dispatch(s, e).Ok? && e.CloseFailed?
    ensures CloseBooks(Dispatch(s, e).value.evidence.close)
  {
  }

  lemma CloseWriterBooks(s: State, e: Event)
    requires Reachable(s) && CloseBooks(s.evidence.close) && Dispatch(s, e).Ok? && WritesClose(e) && !e.CloseFailed?
    ensures CloseBooks(Dispatch(s, e).value.evidence.close)
  {
  }

  lemma CloseBooksStep(s: State, e: Event)
    requires Reachable(s) && CloseBooks(s.evidence.close) && Advance(s, e).Ok?
    ensures CloseBooks(Advance(s, e).value.evidence.close)
  {
    if !WritesClose(e) {
      OthersKeepClose(s, e);
    } else if s.phase.Complete? {
      CompleteIsFinal(s, e);
    } else if e.CloseFailed? {
      CloseFailureBooks(s, e);
    } else {
      CloseWriterBooks(s, e);
    }
    hide Dispatch, Reachable, CloseBooks;
  }

  /** In every run the failures on file are exactly generations one to the newest. */
  lemma {:induction false} CloseBooksHold(s: State, events: seq<Event>)
    requires Reachable(s) && CloseBooks(s.evidence.close)
    ensures CloseBooks(After(s, events).evidence.close)
    decreases |events|
  {
    hide CloseBooks, Reachable;
    if events != [] {
      StepKeeps(s, events[0]);
      if Advance(s, events[0]).Ok? { CloseBooksStep(s, events[0]); }
      CloseBooksHold(StepOrStay(s, events[0]), events[1..]);
    }
  }
}
