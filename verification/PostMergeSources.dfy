/** Where evidence comes from: every recorded field was said by an accepted event of the run. */
module PostMergeSources {
  import opened Prelude
  import opened PostMerge
  import opened PostMergeRuns
  import opened PostMergeHistory

  /** One fact of the evidence, with the fields that were written together. */
  datatype Fact =
    | Adopted(child: string, repository: string, branch: string, pr: int, head: string, journal: string)
    | Epoch(epoch: int)
    | Synced(branch: string, commit: string)
    | CloseBound(issue: string, intent: string)
    | CloseJournaled(issue: string, intent: string, journal: string)
    | SeenClosed(issue: string, intent: string)
    | FailedAs(issue: string, intent: string, generation: int, kind: FailureKind, detail: string)
    | RetriedAs(issue: string, intent: string, generation: int, attempt: int, status: string)
    | Judged(intent: string, decision: Decision, reason: string, tokens: int)
    | Entry(section: string, entry: string)
    | Model(model: string)
    | FailureStatus(generation: int, status: string)
    | Concluded(outcome: LogOutcome)
    | Detailed(detail: string)
    | Landed(commit: string, head: string)
    | RebuiltCommit(commit: string)
    | LogIntent(intent: string)
    | Generated(generation: int)
    | LoggedCommit(commit: string)
    | Pushed(intent: string, journal: string)
    | PushBase(base: string)
    | Received(receipt: string, pushed: string, bookkeeping: string, head: string, proof: string)
    | Failure(intent: string, journal: string, result: string, head: string, base: string, proof: string,
              reason: string)

  /** What an event says, in its own fields. */
  ghost predicate Says(e: Event, f: Fact) {
    match f
    case Adopted(child, repository, branch, pr, head, journal) =>
      e.MergeAdopted? && e.child == child && e.repository == repository && e.parentBranch == branch
      && e.prNumber == pr > 0 && e.headSha == head && e.journalId == journal
    case Epoch(epoch) =>
      epoch > 0 && ((e.MergeAdopted? && e.laneEpoch == epoch) || (e.PushPending? && e.epoch == Some(epoch)))
    case Synced(branch, commit) => e.BranchSynced? && e.branch == branch && e.commitSha == commit
    case CloseBound(issue, intent) => e.ClosePending? && e.issueId == issue && e.intentId == intent
    case CloseJournaled(issue, intent, journal) =>
      e.CloseConfirmed? && e.issueId == issue && e.intentId == intent && e.closeJournalId == journal
    case SeenClosed(issue, intent) =>
      e.CloseAlreadyClosed? && e.issueId == issue && e.intentId == intent && Lower(e.status) == "closed"
    case FailedAs(issue, intent, generation, kind, detail) =>
      e.CloseFailed? && e.issueId == issue && e.intentId == intent && e.failureGeneration == generation
      && e.kind == kind && Clip(e.detail) == detail
    case RetriedAs(issue, intent, generation, attempt, status) =>
      e.CloseRetryAuthorized? && e.issueId == issue && e.intentId == intent && e.failureGeneration == generation
      && e.nextAttempt == attempt && Lower(e.status) == status && (status == "open" || status == "in_progress")
    case Judged(intent, decision, reason, tokens) =>
      e.UnlinkedJudged? && e.intentId == intent && e.decision == decision && Clip(e.reason) == reason
      && e.tokens == tokens >= 0
    case Entry(section, entry) =>
      e.UnlinkedJudged? && e.decision == AddEntry && e.section == section && e.entry == entry
    case Model(model) => e.UnlinkedJudged? && e.model == model
    case FailureStatus(generation, status) =>
      e.CloseFailed? && e.failureGeneration == generation && e.failureStatus == Some(status)
    case Concluded(outcome) => e.NotApplicableDone? && e.outcome == outcome
    case Detailed(detail) => e.NotApplicableDone? && Clip(e.outcomeDetail) == detail
    case Landed(commit, head) =>
      e.NotApplicableDone? && e.outcome == EntryAdded && e.entryCommitSha == commit && e.entryRemoteHead == head
    case RebuiltCommit(commit) => e.LogCommitted? && e.commitSha == commit
    case LogIntent(intent) => (e.LogPending? || e.LogCommitted?) && e.intentId == intent
    case Generated(generation) => (e.LogPending? || e.RebuildRequested?) && e.generation == generation
    case LoggedCommit(commit) =>
      (e.LogCommitted? && e.commitSha == commit) || (e.NotApplicableDone? && e.entryCommitSha == commit)
    case Pushed(intent, journal) => e.PushPending? && e.intentId == intent && e.pushJournal == journal
    case PushBase(base) =>
      (e.PushPending? && e.expectedBaseSha == base) || (e.RebuildRequested? && e.newBaseSha == base)
    case Received(receipt, pushed, bookkeeping, head, proof) =>
      e.PushComplete? && e.receipt.pushReceiptId == receipt && e.receipt.pushedCommit == pushed
      && e.bookkeepingCommit == bookkeeping && e.receipt.observedRemoteHead == head && e.receipt.ancestryProof == proof
    case Failure(intent, journal, result, head, base, proof, reason) =>
      e.RebuildRequested? && e.failedIntent == intent && e.failedJournal == journal && e.failedResult == result
      && e.remoteHead == head && e.newBaseSha == base && e.ancestorProof == proof && e.rebuildReason == reason
  }

  /** What the evidence has on record. */
  ghost predicate Holds(v: Evidence, f: Fact) {
    match f
    case Adopted(child, repository, branch, pr, head, journal) =>
      v.merge.childId == Some(child) && v.merge.repository == Some(repository) && v.merge.parentBranch == Some(branch)
      && v.merge.prNumber == Some(pr) && v.merge.headSha == Some(head) && v.merge.journalId == Some(journal)
    case Epoch(epoch) => v.merge.laneEpoch == Some(epoch)
    case Synced(branch, commit) => v.merge.parentBranch == Some(branch) && v.merge.parentCommit == Some(commit)
    case CloseBound(issue, intent) => v.close.issueId == Some(issue) && v.close.intentId == Some(intent)
    case CloseJournaled(issue, intent, journal) =>
      v.close.outcome == Some(Closed) && v.close.issueId == Some(issue) && v.close.intentId == Some(intent)
      && v.close.journalId == Some(journal)
    case SeenClosed(issue, intent) =>
      v.close.outcome == Some(AlreadyClosed) && v.close.issueId == Some(issue) && v.close.intentId == Some(intent)
    case FailedAs(issue, intent, generation, kind, detail) =>
      v.close.issueId == Some(issue) && v.close.intentId == Some(intent) && generation in v.close.failures
      && v.close.failures[generation].kind == kind && v.close.failures[generation].detail == detail
    case RetriedAs(issue, intent, generation, attempt, status) =>
      v.close.retryIssueId == Some(issue) && v.close.intentId == Some(intent)
      && v.close.retryGeneration == Some(generation)
      && v.close.attempt == Some(attempt) && v.close.retryStatus == Some(status)
    case Judged(intent, decision, reason, tokens) =>
      v.judgment.intentId == Some(intent) && v.judgment.decision == Some(decision)
      && v.judgment.reason == Some(reason) && v.judgment.tokens == Some(tokens)
    case Entry(section, entry) => v.judgment.section == Some(section) && v.judgment.entry == Some(entry)
    case Model(model) => v.judgment.model == Some(model)
    case FailureStatus(generation, status) =>
      generation in v.close.failures && v.close.failures[generation].status == Some(status)
    case Concluded(outcome) => v.judgment.outcome == Some(outcome)
    case Detailed(detail) => v.judgment.outcomeDetail == Some(detail)
    case Landed(commit, head) =>
      v.close.outcome == Some(NotApplicable) && v.judgment.outcome == Some(EntryAdded)
      && v.log.commit == Some(commit) && v.push.remoteHead == Some(head)
    case RebuiltCommit(commit) => v.rebuild.commit == Some(commit)
    case LogIntent(intent) => v.log.intentId == Some(intent)
    case Generated(generation) => v.log.generation == Some(generation)
    case LoggedCommit(commit) => v.log.commit == Some(commit)
    case Pushed(intent, journal) => v.push.intentId == Some(intent) && v.push.journalId == Some(journal)
    case PushBase(base) => v.push.expectedBase == Some(base)
    case Received(receipt, pushed, bookkeeping, head, proof) =>
      v.push.receiptId == Some(receipt) && v.push.pushedCommit == Some(pushed)
      && v.push.bookkeepingCommit == Some(bookkeeping) && v.push.remoteHead == Some(head)
      && v.push.ancestryProof == Some(proof)
    case Failure(intent, journal, result, head, base, proof, reason) =>
      v.rebuild.failedIntent == Some(intent) && v.rebuild.failedJournal == Some(journal)
      && v.rebuild.failedResult == Some(result) && v.rebuild.remoteHead == Some(head)
      && v.rebuild.newBase == Some(base) && v.rebuild.ancestorProof == Some(proof) && v.rebuild.reason == Some(reason)
  }

  /** Only a completed child has a receipt. */
  predicate NoReceiptYet(s: State) {
    !s.phase.Complete? ==> s.evidence.push.receiptId.None?
  }

  lemma StepKeepsNoReceipt(s: State, e: Event)
    requires NoReceiptYet(s) && Advance(s, e).Ok?
    ensures NoReceiptYet(Advance(s, e).value)
  {
  }

  lemma {:induction false} ReceiptComesLast(s: State, events: seq<Event>)
    requires NoReceiptYet(s)
    ensures NoReceiptYet(After(s, events))
    decreases |events|
  {
    hide Advance, NoReceiptYet;
    if events != [] {
      if Advance(s, events[0]).Ok? { StepKeepsNoReceipt(s, events[0]); }
      ReceiptComesLast(StepOrStay(s, events[0]), events[1..]);
    }
  }

  lemma SaidByTheMerge(s: State, e: Event, f: Fact)
    requires Reachable(s) && e.MergeAdopted? && Advance(s, e).Ok? && Holds(Advance(s, e).value.evidence, f)
    ensures Holds(s.evidence, f) || Says(e, f)
  {
  }

  lemma SaidByTheSync(s: State, e: Event, f: Fact)
    requires Reachable(s) && e.BranchSynced? && Advance(s, e).Ok? && Holds(Advance(s, e).value.evidence, f)
    ensures Holds(s.evidence, f) || Says(e, f)
  {
  }

  lemma SaidByAPendingClose(s: State, e: Event, f: Fact)
    requires Reachable(s) && CloseBooks(s.evidence.close) && e.ClosePending?
    requires Advance(s, e).Ok? && Holds(Advance(s, e).value.evidence, f)
    ensures Holds(s.evidence, f) || Says(e, f)
  {
  }

  lemma SaidByAClose(s: State, e: Event, f: Fact)
    requires Reachable(s) && (e.CloseConfirmed? || e.CloseAlreadyClosed?)
    requires Advance(s, e).Ok? && Holds(Advance(s, e).value.evidence, f)
    ensures Holds(s.evidence, f) || Says(e, f)
  {
  }

  lemma SaidByAFailure(s: State, e: Event, f: Fact)
    requires Reachable(s) && e.CloseFailed? && Advance(s, e).Ok? && Holds(Advance(s, e).value.evidence, f)
    ensures Holds(s.evidence, f) || Says(e, f)
  {
  }

  lemma SaidByARetry(s: State, e: Event, f: Fact)
    requires Reachable(s) && e.CloseRetryAuthorized? && Advance(s, e).Ok? && Holds(Advance(s, e).value.evidence, f)
    ensures Holds(s.evidence, f) || Says(e, f)
  {
  }

  lemma SaidByAJudgment(s: State, e: Event, f: Fact)
    requires Reachable(s) && e.UnlinkedJudged? && Advance(s, e).Ok? && Holds(Advance(s, e).value.evidence, f)
    ensures Holds(s.evidence, f) || Says(e, f)
  {
  }

  lemma SaidByAConclusion(s: State, e: Event, f: Fact)
    requires Reachable(s) && NoReceiptYet(s) && e.NotApplicableDone? && Advance(s, e).Ok?
    requires Holds(Advance(s, e).value.evidence, f)
    ensures Holds(s.evidence, f) || Says(e, f)
  {
  }

  lemma AnnouncementWrites(s: State, e: Event)
    requires e.LogPending? && Advance(s, e).Ok?
    ensures var v, u := s.evidence, Advance(s, e).value.evidence;
            && u == v.(log := u.log, rebuild := v.rebuild.(applied := u.rebuild.applied))
            && u.log.commit == v.log.commit
            && u.log.intentId == Some(e.intentId) && u.log.generation == Some(e.generation)
  {
  }

  lemma SaidByAnAnnouncement(s: State, e: Event, f: Fact)
    requires e.LogPending? && Advance(s, e).Ok? && Holds(Advance(s, e).value.evidence, f)
    ensures Holds(s.evidence, f) || Says(e, f)
  {
    hide Advance;
    AnnouncementWrites(s, e);
  }

  /** What a commit leaves alone, and what it says of the rest. */
  lemma CommitWrites(s: State, e: Event)
    requires Reachable(s) && e.LogCommitted? && Advance(s, e).Ok?
    ensures var v, u := s.evidence, Advance(s, e).value.evidence;
            && u == v.(log := u.log, rebuild := v.rebuild.(applied := u.rebuild.applied, commit := u.rebuild.commit))
            && u.log.generation == v.log.generation && u.log.commit == Some(e.commitSha)
            && (u.rebuild.commit == v.rebuild.commit || u.rebuild.commit == Some(e.commitSha))
            && (u.log.intentId == v.log.intentId || u.log.intentId == Some(e.intentId))
            && (u == v || v.close.outcome != Some(NotApplicable))
  {
  }

  lemma SaidByACommit(s: State, e: Event, f: Fact)
    requires Reachable(s) && e.LogCommitted? && Advance(s, e).Ok? && Holds(Advance(s, e).value.evidence, f)
    ensures Holds(s.evidence, f) || Says(e, f)
  {
    hide Advance, Reachable;
    CommitWrites(s, e);
  }

  lemma SaidByAPush(s: State, e: Event, f: Fact)
    requires Reachable(s) && e.PushPending? && Advance(s, e).Ok? && Holds(Advance(s, e).value.evidence, f)
    ensures Holds(s.evidence, f) || Says(e, f)
  {
  }

  lemma SaidByAReceipt(s: State, e: Event, f: Fact)
    requires Reachable(s) && e.PushComplete?
    requires Advance(s, e).Ok? && Holds(Advance(s, e).value.evidence, f)
    ensures Holds(s.evidence, f) || Says(e, f)
  {
  }

  lemma SaidByARebuild(s: State, e: Event, f: Fact)
    requires Reachable(s) && e.RebuildRequested? && Advance(s, e).Ok? && Holds(Advance(s, e).value.evidence, f)
    ensures Holds(s.evidence, f) || Says(e, f)
  {
  }

  /** A step writes nothing but what its event says. */
  lemma StepSays(s: State, e: Event, f: Fact)
    requires Reachable(s) && CloseBooks(s.evidence.close) && NoReceiptYet(s)
    requires Advance(s, e).Ok? && Holds(Advance(s, e).value.evidence, f)
    ensures Holds(s.evidence, f) || Says(e, f)
  {
    hide *;
    match e
    case MergeAdopted(_, _, _, _, _, _, _) => SaidByTheMerge(s, e, f);
    case BranchSynced(_, _, _) => SaidByTheSync(s, e, f);
    case ClosePending(_, _, _) => SaidByAPendingClose(s, e, f);
    case CloseConfirmed(_, _, _, _) => SaidByAClose(s, e, f);
    case CloseAlreadyClosed(_, _, _, _) => SaidByAClose(s, e, f);
    case CloseFailed(_, _, _, _, _, _, _) => SaidByAFailure(s, e, f);
    case CloseRetryAuthorized(_, _, _, _, _, _) => SaidByARetry(s, e, f);
    case UnlinkedJudged(_, _, _, _, _, _, _, _) => SaidByAJudgment(s, e, f);
    case NotApplicableDone(_, _, _, _, _) => SaidByAConclusion(s, e, f);
    case LogPending(_, _, _) => SaidByAnAnnouncement(s, e, f);
    case LogCommitted(_, _, _) => SaidByACommit(s, e, f);
    case PushPending(_, _, _, _, _) => SaidByAPush(s, e, f);
    case PushComplete(_, _, _, _, _) => SaidByAReceipt(s, e, f);
    case RebuildRequested(_, _, _, _, _, _, _, _, _) => SaidByARebuild(s, e, f);
  }

  /** The n-th event of the run was accepted and says this. */
  ghost predicate SaidAt(events: seq<Event>, n: int, f: Fact) {
    Accepted(FRESH, events, n) && Says(events[n], f)
  }

  lemma NothingHolds(f: Fact)
    ensures !Holds(FRESH.evidence, f)
  {
  }

  /** In every run, whatever the evidence holds was said by an accepted event of that run. */
  lemma {:induction false} EvidenceWasSaid(events: seq<Event>, f: Fact) returns (n: int)
    requires Holds(After(FRESH, events).evidence, f)
    ensures SaidAt(events, n, f)
    decreases |events|
  {
    hide Advance, Holds, Says, Reachable, CloseBooks, StepOrStay, NoReceiptYet;
    if events == [] {
      NothingHolds(f);
      assert false;
      n := 0;
    } else {
      var last := |events| - 1;
      var before := events[..last];
      LastEvent(events);
      BeforeTheLast(before);
      var s := After(FRESH, before);
      if Holds(s.evidence, f) {
        n := EvidenceWasSaid(before, f);
        assert before[..n] == events[..n];
      } else {
        TakenIsAccepted(s, events[last]);
        StepSays(s, events[last], f);
        n := last;
      }
    }
  }

  lemma LastEvent(events: seq<Event>)
    requires events != []
    ensures After(FRESH, events) == StepOrStay(After(FRESH, events[..|events| - 1]), events[|events| - 1])
  {
    var last := |events| - 1;
    assert events == events[..last] + [events[last]];
    AfterJoined(FRESH, events[..last], [events[last]]);
    OneEvent(After(FRESH, events[..last]), events[last]);
  }

  lemma BeforeTheLast(events: seq<Event>)
    ensures Reachable(After(FRESH, events)) && CloseBooks(After(FRESH, events).evidence.close)
    ensures NoReceiptYet(After(FRESH, events))
  {
    ReceiptComesLast(FRESH, events);
    RunsAreReachable(FRESH, events);
    CloseBooksHold(FRESH, events);
  }

  lemma TakenIsAccepted(s: State, e: Event)
    ensures StepOrStay(s, e) != s ==> Advance(s, e).Ok?
    ensures Advance(s, e).Ok? ==> StepOrStay(s, e) == Advance(s, e).value
  {
    hide Advance;
  }

  // ---- the close of an issue

  /** A child closed as already closed was observed so: an accepted event of the run saw that very issue closed. */
  lemma AlreadyClosedWasSeen(events: seq<Event>) returns (n: int)
    requires After(FRESH, events).evidence.close.outcome == Some(AlreadyClosed)
    ensures Accepted(FRESH, events, n) && events[n].CloseAlreadyClosed? && Lower(events[n].status) == "closed"
    ensures After(FRESH, events).evidence.close.issueId == Some(events[n].issueId)
    ensures After(FRESH, events).evidence.close.intentId == Some(events[n].intentId)
  {
    var c := After(FRESH, events).evidence.close;
    ClosedIsBound(events);
    n := EvidenceWasSaid(events, SeenClosed(c.issueId.value, c.intentId.value));
    hide After, Advance;
  }

  /** And a child closed by journal was confirmed under that journal. */
  lemma ClosedWasJournaled(events: seq<Event>) returns (n: int)
    requires After(FRESH, events).evidence.close.outcome == Some(Closed)
    ensures Accepted(FRESH, events, n) && events[n].CloseConfirmed?
    ensures var c := After(FRESH, events).evidence.close;
            c.issueId == Some(events[n].issueId) && c.intentId == Some(events[n].intentId)
            && c.journalId == Some(events[n].closeJournalId)
  {
    var c := After(FRESH, events).evidence.close;
    ClosedIsBound(events);
    n := EvidenceWasSaid(events, CloseJournaled(c.issueId.value, c.intentId.value, c.journalId.value));
    hide After, Advance;
  }

  lemma ClosedIsBound(events: seq<Event>)
    requires IssueClosed(After(FRESH, events).evidence)
    ensures var c := After(FRESH, events).evidence.close;
            c.issueId.Some? && c.intentId.Some? && (c.outcome == Some(Closed) ==> c.journalId.Some?)
  {
    RunsAreReachable(FRESH, events);
    hide After;
  }

  /** At a pending close, an observation is adopted if and only if it is of the bound issue and says closed. */
  lemma ObservationIsAdoptedIff(s: State, child: string, issue: string, intent: string, status: string)
    requires Reachable(s) && s.phase.IssueClosePending?
    ensures Advance(s, CloseAlreadyClosed(child, issue, intent, status)).Ok? <==>
              s.evidence.merge.childId == Some(child) && s.evidence.close.issueId == Some(issue)
              && s.evidence.close.intentId == Some(intent) && Lower(status) == "closed"
  {
  }

  // ---- completion

  /** The event reports this issue closed: by a confirmed close, or by an observation of its status. */
  predicate ReportsClosed(e: Event, issue: string) {
    || (e.CloseConfirmed? && e.issueId == issue)
    || (e.CloseAlreadyClosed? && e.issueId == issue && Lower(e.status) == "closed")
  }

  /** Whoever closed the issue, an accepted event of the run reported the bound issue closed. */
  lemma ClosedHasItsReport(events: seq<Event>) returns (n: int)
    requires IssueClosed(After(FRESH, events).evidence)
    ensures Accepted(FRESH, events, n) && After(FRESH, events).evidence.close.issueId.Some?
    ensures ReportsClosed(events[n], After(FRESH, events).evidence.close.issueId.value)
  {
    hide After, Advance;
    if After(FRESH, events).evidence.close.outcome == Some(AlreadyClosed) {
      n := AlreadyClosedWasSeen(events);
    } else {
      n := ClosedWasJournaled(events);
    }
  }

  /**
   In every run a linked completion stems from accepted events: one reported the bound issue closed, and the
   receipt of one proved the push of the changelog commit, under identities no rebuild just declared failed.
   */
  lemma LinkedCompletion(events: seq<Event>) returns (i: int, j: int)
    requires After(FRESH, events).phase.Complete? && Linked(After(FRESH, events))
    ensures var e := After(FRESH, events).evidence;
            && Accepted(FRESH, events, i) && e.close.issueId.Some? && ReportsClosed(events[i], e.close.issueId.value)
            && Accepted(FRESH, events, j) && events[j].PushComplete?
            && e.push.receiptId == Some(events[j].receipt.pushReceiptId)
            && e.push.pushedCommit == Some(events[j].receipt.pushedCommit)
            && e.push.remoteHead == Some(events[j].receipt.observedRemoteHead)
            && OneCommit(e) && PushIsFresh(e)
  {
    hide Advance, After, Accepted, ReportsClosed;
    CompletionIsRecorded(events);
    i := ClosedHasItsReport(events);
    var p := After(FRESH, events).evidence.push;
    j := EvidenceWasSaid(events, Received(p.receiptId.value, p.pushedCommit.value, p.bookkeepingCommit.value,
                                          p.remoteHead.value, p.ancestryProof.value));
  }
}
