/** When a post-merge event takes effect: the phase it waits for, the texts it needs, and what it has to match. */
module PostMergeAcceptance {
  import opened Prelude
  import opened PostMerge
  import opened PostMergeRuns

  /** The phase in which an event of this kind takes effect. */
  function Waits(e: Event): Phase {
    match e
    case MergeAdopted(_, _, _, _, _, _, _) => NotStarted
    case BranchSynced(_, _, _) => RemoteMergeAdopted
    case UnlinkedJudged(_, _, _, _, _, _, _, _) => ParentBranchSynced
    case NotApplicableDone(_, _, _, _, _) => ParentBranchSynced
    case ClosePending(_, _, _) => ParentBranchSynced
    case CloseFailed(_, _, _, _, _, _, _) => IssueClosePending
    case CloseRetryAuthorized(_, _, _, _, _, _) => IssueClosePending
    case CloseConfirmed(_, _, _, _) => IssueClosePending
    case CloseAlreadyClosed(_, _, _, _) => IssueClosePending
    case LogPending(_, _, _) => Phase.IssueCloseConfirmed
    case LogCommitted(_, _, _) => ChangelogPending
    case PushPending(_, _, _, _, _) => ChangelogCommitted
    case PushComplete(_, _, _, _, _) => ParentPushPending
    case RebuildRequested(_, _, _, _, _, _, _, _, _) => ParentPushPending
  }

  /** The event lacks nothing. */
  predicate WellFormed(e: Event) {
    match e
    case MergeAdopted(child, pr, head, journal, repository, branch, epoch) =>
      !Empty(child) && !Empty(head) && !Empty(journal) && !Empty(repository) && !Empty(branch) && pr >= 1 && epoch >= 1
    case BranchSynced(child, branch, commit) => !Empty(child) && !Empty(branch) && !Empty(commit)
    case UnlinkedJudged(child, intent, decision, reason, section, entry, _, tokens) =>
      !Empty(child) && !Empty(intent) && !Empty(reason) && tokens >= 0 && !decision.OtherDecision?
      && (if decision == AddEntry then !Empty(section) && !Empty(entry) else Empty(section) && Empty(entry))
    case NotApplicableDone(child, outcome, _, commit, head) =>
      !Empty(child) && !outcome.OtherOutcome?
      && (if outcome == EntryAdded then !Empty(commit) && !Empty(head) else Empty(commit) && Empty(head))
    case ClosePending(child, issue, intent) => !Empty(child) && !Empty(issue) && !Empty(intent)
    case CloseFailed(child, issue, intent, generation, _, detail, _) =>
      !Empty(child) && !Empty(issue) && !Empty(intent) && !Empty(detail) && generation >= 1
    case CloseRetryAuthorized(child, issue, intent, generation, attempt, _) =>
      !Empty(child) && !Empty(issue) && !Empty(intent) && generation >= 1 && attempt >= 1
    case CloseConfirmed(child, issue, intent, journal) =>
      !Empty(child) && !Empty(issue) && !Empty(intent) && !Empty(journal)
    case CloseAlreadyClosed(child, issue, intent, _) => !Empty(child) && !Empty(issue) && !Empty(intent)
    case LogPending(child, intent, generation) => !Empty(child) && !Empty(intent) && generation >= 0
    case LogCommitted(child, intent, commit) => !Empty(child) && !Empty(intent) && !Empty(commit)
    case PushPending(child, intent, base, journal, epoch) =>
      !Empty(child) && !Empty(intent) && !Empty(base) && !Empty(journal) && (epoch.Some? ==> epoch.value >= 1)
    case PushComplete(child, journal, intent, commit, _) =>
      !Empty(child) && !Empty(journal) && !Empty(intent) && !Empty(commit)
    case RebuildRequested(child, generation, intent, journal, result, head, base, proof, reason) =>
      !Empty(child) && !Empty(intent) && !Empty(journal) && !Empty(result)
      && !Empty(head) && !Empty(base) && !Empty(proof) && !Empty(reason) && generation >= 1
  }

  /** The outcomes an unlinked child may be concluded with after a decision. */
  const CONCLUSIONS: set<(Decision, LogOutcome)> := {
    (Captured, WasCaptured), (NoChangelog, HadNoChangelog), (JudgmentFailed, HadFailedJudgment),
    (AddEntry, EntryAdded), (AddEntry, EntryWriteFailed), (AddEntry, EntryPushFailed)}

  /** The event answers what the evidence has on record. */
  predicate Answers(v: Evidence, e: Event) {
    match e
    case MergeAdopted(_, _, _, _, _, _, _) => true
    case BranchSynced(_, branch, _) => v.merge.parentBranch == Some(branch)
    case UnlinkedJudged(_, _, _, _, _, _, _, _) => v.judgment.decision == None
    case NotApplicableDone(_, outcome, _, _, _) =>
      v.judgment.decision.Some? && (v.judgment.decision.value, outcome) in CONCLUSIONS
    case ClosePending(_, _, _) => true
    case CloseFailed(_, issue, intent, generation, _, _, _) =>
      SameIssue(v, issue, intent) && generation == Counter(v.close.failureGeneration, 0) + 1
    case CloseRetryAuthorized(_, issue, intent, generation, attempt, status) =>
      SameIssue(v, issue, intent) && v.close.failureGeneration == Some(generation)
      && attempt == Counter(v.close.attempt, 1) + 1 && (Lower(status) == "open" || Lower(status) == "in_progress")
    case CloseConfirmed(_, issue, intent, _) => SameIssue(v, issue, intent)
    case CloseAlreadyClosed(_, issue, intent, status) => SameIssue(v, issue, intent) && Lower(status) == "closed"
    case LogPending(_, _, _) => true
    case LogCommitted(_, intent, _) =>
      (v.log.intentId == Some(intent)) <==> (v.rebuild.reason == None || v.rebuild.applied)
    case PushPending(_, intent, _, journal, _) =>
      v.rebuild.failedIntent != Some(intent) && v.rebuild.failedJournal != Some(journal)
    case PushComplete(child, mergeJournal, intent, commit, receipt) =>
      && v.merge.childId == Some(receipt.childId) && receipt.childId == child
      && v.merge.journalId == Some(mergeJournal)
      && v.push.intentId == Some(intent) && intent == receipt.pushIntentId
      && v.push.journalId == Some(receipt.pushJournalId) && v.push.expectedBase == Some(receipt.expectedBaseSha)
      && v.merge.laneEpoch == Some(receipt.laneEpoch)
      && v.merge.repository == Some(receipt.repository) && v.merge.parentBranch == Some(receipt.parentBranch)
      && v.log.commit == Some(commit) && commit == receipt.pushedCommit
    case RebuildRequested(_, generation, intent, journal, _, _, _, _, _) =>
      v.push.intentId == Some(intent) && v.push.journalId == Some(journal)
      && generation > Counter(v.log.generation, 0)
  }

  predicate SameIssue(v: Evidence, issue: string, intent: string) {
    v.close.issueId == Some(issue) && v.close.intentId == Some(intent)
  }

  /** The one event that also takes effect in its own phase: another intent for the generation of a rebuild. */
  predicate Replaces(s: State, e: Event) {
    && e.LogPending? && s.phase == ChangelogPending && s.evidence.rebuild.reason != None
    && s.evidence.log.generation == Some(e.generation) && s.evidence.log.intentId != Some(e.intentId)
  }

  /** An event of the child takes effect. */
  predicate Fits(s: State, e: Event) {
    && WellFormed(e) && (s.phase.NotStarted? || s.evidence.merge.childId == Some(e.child))
    && ((s.phase == Waits(e) && Answers(s.evidence, e)) || Replaces(s, e))
  }

  /** A reason on record is a text. */
  predicate ReasonIsText(s: State) {
    s.evidence.rebuild.reason.Some? ==> !Empty(s.evidence.rebuild.reason.value)
  }

  lemma StepKeepsReason(s: State, e: Event)
    requires ReasonIsText(s) && Advance(s, e).Ok?
    ensures ReasonIsText(Advance(s, e).value)
  {
  }

  lemma {:induction false} ReasonStaysText(s: State, events: seq<Event>)
    requires ReasonIsText(s)
    ensures ReasonIsText(After(s, events))
    decreases |events|
  {
    hide Advance, ReasonIsText;
    if events != [] {
      if Advance(s, events[0]).Ok? { StepKeepsReason(s, events[0]); }
      ReasonStaysText(StepOrStay(s, events[0]), events[1..]);
    }
  }

  lemma OpeningFits(s: State, e: Event)
    requires Reachable(s) && (e.MergeAdopted? || e.BranchSynced?)
    ensures StepOrStay(s, e) != s <==> Fits(s, e)
  {
  }

  lemma UnlinkedFits(s: State, e: Event)
    requires Reachable(s) && (e.UnlinkedJudged? || e.NotApplicableDone?)
    ensures StepOrStay(s, e) != s <==> Fits(s, e)
  {
  }

  lemma CloseFits(s: State, e: Event)
    requires Reachable(s) && (e.ClosePending? || e.CloseConfirmed? || e.CloseAlreadyClosed?)
    ensures StepOrStay(s, e) != s <==> Fits(s, e)
  {
  }

  lemma RetryFits(s: State, e: Event)
    requires Reachable(s) && CloseBooks(s.evidence.close) && (e.CloseFailed? || e.CloseRetryAuthorized?)
    ensures StepOrStay(s, e) != s <==> Fits(s, e)
  {
  }

  lemma LogFits(s: State, e: Event)
    requires Reachable(s) && ReasonIsText(s) && (e.LogPending? || e.LogCommitted?)
    ensures StepOrStay(s, e) != s <==> Fits(s, e)
  {
  }

  lemma PushFits(s: State, e: Event)
    requires Reachable(s) && (e.PushPending? || e.PushComplete?)
    ensures StepOrStay(s, e) != s <==> Fits(s, e)
  {
  }

  lemma RebuildFits(s: State, e: Event)
    requires Reachable(s) && e.RebuildRequested?
    ensures StepOrStay(s, e) != s <==> Fits(s, e)
  {
  }

  lemma EventFits(s: State, e: Event)
    requires Reachable(s) && CloseBooks(s.evidence.close) && ReasonIsText(s)
    ensures StepOrStay(s, e) != s <==> Fits(s, e)
  {
    hide *;
    match e
    case MergeAdopted(_, _, _, _, _, _, _) => OpeningFits(s, e);
    case BranchSynced(_, _, _) => OpeningFits(s, e);
    case UnlinkedJudged(_, _, _, _, _, _, _, _) => UnlinkedFits(s, e);
    case NotApplicableDone(_, _, _, _, _) => UnlinkedFits(s, e);
    case ClosePending(_, _, _) => CloseFits(s, e);
    case CloseFailed(_, _, _, _, _, _, _) => RetryFits(s, e);
    case CloseRetryAuthorized(_, _, _, _, _, _) => RetryFits(s, e);
    case CloseConfirmed(_, _, _, _) => CloseFits(s, e);
    case CloseAlreadyClosed(_, _, _, _) => CloseFits(s, e);
    case LogPending(_, _, _) => LogFits(s, e);
    case LogCommitted(_, _, _) => LogFits(s, e);
    case PushPending(_, _, _, _, _) => PushFits(s, e);
    case PushComplete(_, _, _, _, _) => PushFits(s, e);
    case RebuildRequested(_, _, _, _, _, _, _, _, _) => RebuildFits(s, e);
  }

  lemma RunFacts(events: seq<Event>)
    ensures var s := After(FRESH, events); Reachable(s) && CloseBooks(s.evidence.close) && ReasonIsText(s)
  {
    RunsAreReachable(FRESH, events);
    CloseBooksHold(FRESH, events);
    ReasonStaysText(FRESH, events);
    hide Advance, After, Reachable, CloseBooks;
  }

  /** In every run, the next event changes the state if and only if it fits. */
  lemma TakesEffectIff(events: seq<Event>, e: Event)
    ensures StepOrStay(After(FRESH, events), e) != After(FRESH, events) <==> Fits(After(FRESH, events), e)
  {
    hide *;
    RunFacts(events);
    EventFits(After(FRESH, events), e);
  }

  /** On any state, reachable or not, an issue that is bound keeps the unlinked path from starting or finishing. */
  lemma UnlinkedIsUnbound(s: State, e: Event)
    requires !s.phase.Complete? && (e.UnlinkedJudged? || e.NotApplicableDone?) && Advance(s, e).Ok?
    ensures s.phase.ParentBranchSynced? && s.evidence.close.issueId == None
  {
  }

  // ---- what a repeated event has to repeat

  /** The event says once more what the evidence has on record of it, in the phase it led to. */
  predicate Repeats(s: State, e: Event) {
    var v := s.evidence;
    v.merge.childId == Some(e.child) && !Empty(e.child) &&
    match e
    case MergeAdopted(_, pr, head, journal, repository, branch, epoch) =>
      s.phase == RemoteMergeAdopted && v.merge.repository == Some(repository) && v.merge.parentBranch == Some(branch)
      && v.merge.prNumber == Some(pr) && v.merge.headSha == Some(head) && v.merge.journalId == Some(journal)
      && v.merge.laneEpoch == Some(epoch) && WellFormed(e)
    case BranchSynced(_, branch, commit) =>
      s.phase == ParentBranchSynced && v.merge.parentBranch == Some(branch) && v.merge.parentCommit == Some(commit)
    case UnlinkedJudged(_, intent, decision, reason, section, entry, model, tokens) =>
      s.phase == ParentBranchSynced && WellFormed(e)
      && v.judgment.intentId == Some(intent) && v.judgment.decision == Some(decision)
      && v.judgment.reason == Some(Clip(reason)) && v.judgment.tokens == Some(tokens)
      && (Empty(model) || v.judgment.model == Some(model))
      && (decision == AddEntry ==> v.judgment.section == Some(section) && v.judgment.entry == Some(entry))
    case NotApplicableDone(_, outcome, _, _, _) =>
      s.phase == Complete && v.close.outcome == Some(NotApplicable) && v.judgment.outcome == Some(outcome)
      && !outcome.OtherOutcome?
    case ClosePending(_, issue, intent) => s.phase == IssueClosePending && SameIssue(v, issue, intent)
    case CloseFailed(_, issue, intent, generation, kind, detail, _) =>
      s.phase == IssueClosePending && SameIssue(v, issue, intent) && v.close.failureGeneration == Some(generation)
      && generation >= 1 && !Empty(detail) && generation in v.close.failures
      && v.close.failures[generation].kind == kind && v.close.failures[generation].detail == Clip(detail)
    case CloseRetryAuthorized(_, _, _, _, _, _) => false
    case CloseConfirmed(_, issue, intent, journal) =>
      s.phase == Phase.IssueCloseConfirmed && SameIssue(v, issue, intent) && v.close.journalId == Some(journal)
      && !Empty(journal)
    case CloseAlreadyClosed(_, issue, intent, status) =>
      s.phase == Phase.IssueCloseConfirmed && SameIssue(v, issue, intent) && v.close.outcome == Some(AlreadyClosed)
      && v.close.observedIssueId == Some(issue) && v.close.observedStatus == Some("closed")
      && Lower(status) == "closed"
    case LogPending(_, intent, generation) =>
      s.phase == ChangelogPending && v.log.intentId == Some(intent) && v.log.generation == Some(generation)
    case LogCommitted(_, intent, commit) =>
      s.phase == ChangelogCommitted && v.log.intentId == Some(intent) && v.log.commit == Some(commit)
    case PushPending(_, intent, base, journal, epoch) =>
      s.phase == ParentPushPending && v.push.intentId == Some(intent) && v.push.journalId == Some(journal)
      && v.push.expectedBase == Some(base) && (epoch == None || v.merge.laneEpoch == epoch)
    case PushComplete(_, mergeJournal, intent, commit, receipt) =>
      s.phase == Complete && v.merge.journalId == Some(mergeJournal) && v.push.intentId == Some(intent)
      && v.push.journalId == Some(receipt.pushJournalId) && v.push.receiptId == Some(receipt.pushReceiptId)
      && v.push.pushedCommit == Some(receipt.pushedCommit) && v.push.bookkeepingCommit == Some(commit)
      && v.push.remoteHead == Some(receipt.observedRemoteHead) && v.push.ancestryProof == Some(receipt.ancestryProof)
    case RebuildRequested(_, _, _, _, _, _, _, _, _) => false
  }

  lemma OpeningRepeats(s: State, e: Event)
    requires Reachable(s) && (e.MergeAdopted? || e.BranchSynced?)
    ensures Advance(s, e) == Ok(s) <==> Repeats(s, e)
  {
  }

  lemma UnlinkedRepeats(s: State, e: Event)
    requires Reachable(s) && (e.UnlinkedJudged? || e.NotApplicableDone?)
    ensures Advance(s, e) == Ok(s) <==> Repeats(s, e)
  {
  }

  lemma CloseRepeats(s: State, e: Event)
    requires Reachable(s) && (e.ClosePending? || e.CloseConfirmed? || e.CloseAlreadyClosed?)
    ensures Advance(s, e) == Ok(s) <==> Repeats(s, e)
  {
  }

  lemma RetryRepeats(s: State, e: Event)
    requires Reachable(s) && CloseBooks(s.evidence.close) && (e.CloseFailed? || e.CloseRetryAuthorized?)
    ensures Advance(s, e) == Ok(s) <==> Repeats(s, e)
  {
  }

  lemma LogRepeats(s: State, e: Event)
    requires Reachable(s) && (e.LogPending? || e.LogCommitted?)
    ensures Advance(s, e) == Ok(s) <==> Repeats(s, e)
  {
  }

  lemma PushRepeats(s: State, e: Event)
    requires Reachable(s) && (e.PushPending? || e.PushComplete?)
    ensures Advance(s, e) == Ok(s) <==> Repeats(s, e)
  {
  }

  lemma RebuildRepeats(s: State, e: Event)
    requires Reachable(s) && e.RebuildRequested?
    ensures Advance(s, e) == Ok(s) <==> Repeats(s, e)
  {
  }

  /** In every run an event is absorbed, accepted without changing anything, if and only if it repeats the record. */
  lemma AbsorbedIff(events: seq<Event>, e: Event)
    ensures Advance(After(FRESH, events), e) == Ok(After(FRESH, events)) <==> Repeats(After(FRESH, events), e)
  {
    hide *;
    var s := After(FRESH, events);
    RunFacts(events);
    match e
    case MergeAdopted(_, _, _, _, _, _, _) => OpeningRepeats(s, e);
    case BranchSynced(_, _, _) => OpeningRepeats(s, e);
    case UnlinkedJudged(_, _, _, _, _, _, _, _) => UnlinkedRepeats(s, e);
    case NotApplicableDone(_, _, _, _, _) => UnlinkedRepeats(s, e);
    case ClosePending(_, _, _) => CloseRepeats(s, e);
    case CloseFailed(_, _, _, _, _, _, _) => RetryRepeats(s, e);
    case CloseRetryAuthorized(_, _, _, _, _, _) => RetryRepeats(s, e);
    case CloseConfirmed(_, _, _, _) => CloseRepeats(s, e);
    case CloseAlreadyClosed(_, _, _, _) => CloseRepeats(s, e);
    case LogPending(_, _, _) => LogRepeats(s, e);
    case LogCommitted(_, _, _) => LogRepeats(s, e);
    case PushPending(_, _, _, _, _) => PushRepeats(s, e);
    case PushComplete(_, _, _, _, _) => PushRepeats(s, e);
    case RebuildRequested(_, _, _, _, _, _, _, _, _) => RebuildRepeats(s, e);
  }

  // ---- the texts statuses and details are reduced to

  const UPPER := "ABCDEFGHIJKLMNOPQRSTUVWXYZ"
  const LOWER := "abcdefghijklmnopqrstuvwxyz"

  /** Lower case, letter by letter; everything else stays. */
  lemma LowerFolds(t: string, i: nat)
    requires i < |t|
    ensures |Lower(t)| == |t|
    ensures forall k :: 0 <= k < 26 && t[i] == UPPER[k] ==> Lower(t)[i] == LOWER[k]
    ensures t[i] !in UPPER ==> Lower(t)[i] == t[i]
  {
  }

  lemma ClipKeepsThePrefix(t: string)
    ensures Clip(t) <= t && |Clip(t)| <= 500 && (|t| <= 500 ==> Clip(t) == t) && (|t| > 500 ==> |Clip(t)| == 500)
  {
  }
}
