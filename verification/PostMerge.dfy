/** The guarded post-merge checkpoint machine of one child, over cumulative evidence. */
module PostMerge {
  import opened Prelude

  datatype Phase =
    | NotStarted | NotRequired
    | RemoteMergeAdopted | ParentBranchSynced
    | IssueClosePending | IssueCloseConfirmed
    | ChangelogPending | ChangelogCommitted
    | ParentPushPending | Complete

  datatype CloseOutcome = Closed | AlreadyClosed | NotApplicable
  datatype Decision = Captured | AddEntry | NoChangelog | JudgmentFailed | OtherDecision(word: string)
  datatype LogOutcome =
    | WasCaptured | HadNoChangelog | HadFailedJudgment
    | EntryAdded | EntryWriteFailed | EntryPushFailed | OtherOutcome(word: string)
  datatype FailureKind = Unavailable | Timeout | Rejected | Unknown
  datatype Failure = Failure(kind: FailureKind, detail: string, status: Option<string>)

  /** A textual evidence key: absent, or holding a possibly empty text. */
  type Text = Option<string>

  datatype MergeEvidence = MergeEvidence(
    childId: Text, repository: Text, parentBranch: Text, prNumber: Option<int>, headSha: Text,
    journalId: Text, laneEpoch: Option<int>, parentCommit: Text)

  /** Failure details are kept per failure generation. */
  datatype CloseEvidence = CloseEvidence(
    issueId: Text, intentId: Text, attempt: Option<int>, outcome: Option<CloseOutcome>, journalId: Text,
    observedIssueId: Text, observedStatus: Text,
    failureGeneration: Option<int>, failureAttempt: Option<int>, failures: map<int, Failure>,
    retryGeneration: Option<int>, retryIssueId: Text, retryStatus: Text)

  datatype JudgmentEvidence = JudgmentEvidence(
    intentId: Text, decision: Option<Decision>, reason: Text, tokens: Option<int>, model: Text,
    section: Text, entry: Text, outcome: Option<LogOutcome>, outcomeDetail: Text)

  datatype LogEvidence = LogEvidence(intentId: Text, generation: Option<int>, commit: Text)

  datatype PushEvidence = PushEvidence(
    intentId: Text, journalId: Text, expectedBase: Text, receiptId: Text, pushedCommit: Text,
    bookkeepingCommit: Text, remoteHead: Text, ancestryProof: Text)

  datatype RebuildEvidence = RebuildEvidence(
    failedIntent: Text, failedJournal: Text, failedResult: Text, remoteHead: Text, newBase: Text,
    ancestorProof: Text, reason: Text, applied: bool, commit: Text)

  /** Results of children that need no post-merge sequence. */
  datatype ResultEvidence = ResultEvidence(worker: Text, leaf: Text, aggregateDeclined: bool)

  /** Cumulative evidence, one field for each key, grouped by the step family that writes it. */
  datatype Evidence = Evidence(
    merge: MergeEvidence, close: CloseEvidence, judgment: JudgmentEvidence, log: LogEvidence,
    push: PushEvidence, rebuild: RebuildEvidence, results: ResultEvidence)

  datatype State = State(phase: Phase, evidence: Evidence)

  const NOTHING := Evidence(
    MergeEvidence(None, None, None, None, None, None, None, None),
    CloseEvidence(None, None, None, None, None, None, None, None, None, map[], None, None, None),
    JudgmentEvidence(None, None, None, None, None, None, None, None, None),
    LogEvidence(None, None, None),
    PushEvidence(None, None, None, None, None, None, None, None),
    RebuildEvidence(None, None, None, None, None, None, None, false, None),
    ResultEvidence(None, None, false))

  const FRESH := State(NotStarted, NOTHING)

  /** `Guard` is a step refusing its event; `Incomplete` is the state constructor refusing its evidence. */
  datatype Refusal = Guard | Incomplete

  type Outcome = Result<State, Refusal>

  // ---- the constructor's cumulative requirement

  /** A required text is present and non-empty. */
  predicate Has(t: Text) {
    t.Some? && !Empty(t.value)
  }

  predicate MergeRecorded(m: MergeEvidence) {
    && Has(m.childId) && Has(m.repository) && Has(m.parentBranch) && m.prNumber.Some?
    && Has(m.headSha) && Has(m.journalId) && m.laneEpoch.Some?
  }

  function Rank(p: Phase): nat {
    match p
    case NotStarted => 0
    case NotRequired => 0
    case RemoteMergeAdopted => 1
    case ParentBranchSynced => 2
    case IssueClosePending => 3
    case IssueCloseConfirmed => 4
    case ChangelogPending => 5
    case ChangelogCommitted => 6
    case ParentPushPending => 7
    case Complete => 8
  }

  /** What the linked progression requires, phase by phase. */
  predicate PhaseRecorded(p: Phase, e: Evidence) {
    && (Rank(p) >= 1 ==> MergeRecorded(e.merge))
    && (Rank(p) >= 2 ==> Has(e.merge.parentCommit))
    && (Rank(p) >= 3 ==> Has(e.close.issueId) && Has(e.close.intentId))
    && (Rank(p) >= 4 ==> CloseProven(e.close))
    && (Rank(p) >= 5 ==> Has(e.log.intentId) && e.log.generation.Some?)
    && (Rank(p) >= 6 ==> Has(e.log.commit))
    && (Rank(p) >= 7 ==> Has(e.push.intentId) && Has(e.push.journalId) && Has(e.push.expectedBase))
    && (Rank(p) >= 8 ==>
          && Has(e.push.receiptId) && Has(e.push.pushedCommit) && Has(e.push.bookkeepingCommit)
          && Has(e.push.remoteHead) && Has(e.push.ancestryProof))
  }

  /** Either the close was journaled, or the issue was observed closed already. */
  predicate CloseProven(c: CloseEvidence) {
    if c.outcome == Some(AlreadyClosed) then Has(c.observedIssueId) && Has(c.observedStatus)
    else Has(c.journalId)
  }

  /** What an unlinked completion requires instead. */
  predicate UnlinkedRecorded(e: Evidence) {
    && MergeRecorded(e.merge) && Has(e.merge.parentCommit)
    && e.close.outcome.Some? && e.judgment.outcome.Some?
    && (e.judgment.outcome == Some(EntryAdded) ==> Has(e.log.commit) && Has(e.push.remoteHead))
  }

  /** The constructor's check. */
  predicate Adequate(s: State) {
    if s.phase.Complete? && s.evidence.close.outcome == Some(NotApplicable)
    then UnlinkedRecorded(s.evidence)
    else PhaseRecorded(s.phase, s.evidence)
  }

  /** The state constructor. */
  function Construct(p: Phase, e: Evidence): Outcome {
    if Adequate(State(p, e)) then Ok(State(p, e)) else Err(Incomplete)
  }

  // ---- events

  datatype PushReceipt = PushReceipt(
    repository: string, parentBranch: string, childId: string, laneEpoch: int,
    pushIntentId: string, pushJournalId: string, pushReceiptId: string,
    expectedBaseSha: string, pushedCommit: string, observedRemoteHead: string, ancestryProof: string)

  /** What the receipt constructor checks. */
  predicate ValidReceipt(r: PushReceipt) {
    && !Empty(r.repository) && !Empty(r.parentBranch) && !Empty(r.childId) && r.laneEpoch > 0
    && !Empty(r.pushIntentId) && !Empty(r.pushJournalId) && !Empty(r.pushReceiptId)
    && !Empty(r.expectedBaseSha) && !Empty(r.pushedCommit) && !Empty(r.observedRemoteHead) && !Empty(r.ancestryProof)
  }

  type Receipt = r: PushReceipt | ValidReceipt(r)
    witness PushReceipt("r", "b", "c", 1, "i", "j", "p", "x", "y", "h", "a")

  datatype Event =
    | MergeAdopted(child: string, prNumber: int, headSha: string, journalId: string,
                   repository: string, parentBranch: string, laneEpoch: int)
    | BranchSynced(child: string, branch: string, commitSha: string)
    | ClosePending(child: string, issueId: string, intentId: string)
    | CloseConfirmed(child: string, issueId: string, intentId: string, closeJournalId: string)
    | CloseAlreadyClosed(child: string, issueId: string, intentId: string, status: string)
    | CloseFailed(child: string, issueId: string, intentId: string, failureGeneration: int,
                  kind: FailureKind, detail: string, failureStatus: Option<string>)
    | CloseRetryAuthorized(child: string, issueId: string, intentId: string, failureGeneration: int,
                           nextAttempt: int, status: string)
    | UnlinkedJudged(child: string, intentId: string, decision: Decision, reason: string,
                     section: string, entry: string, model: string, tokens: int)
    | NotApplicableDone(child: string, outcome: LogOutcome, outcomeDetail: string,
                        entryCommitSha: string, entryRemoteHead: string)
    | LogPending(child: string, intentId: string, generation: int)
    | LogCommitted(child: string, intentId: string, commitSha: string)
    | PushPending(child: string, intentId: string, expectedBaseSha: string, pushJournal: string, epoch: Option<int>)
    | PushComplete(child: string, mergeJournal: string, pushIntent: string, bookkeepingCommit: string, receipt: Receipt)
    | RebuildRequested(child: string, generation: int, failedIntent: string, failedJournal: string,
                       failedResult: string, remoteHead: string, newBaseSha: string,
                       ancestorProof: string, rebuildReason: string)

  // ---- helpers

  function Keep(s: State, ok: bool): Outcome {
    if ok then Ok(s) else Err(Guard)
  }

  function Clip(t: string): string {
    if |t| > 500 then t[..500] else t
  }

  function LowerChar(c: char): char {
    if 'A' <= c <= 'Z' then ((c as int) + 32) as char else c
  }

  function Lower(t: string): string {
    seq(|t|, i requires 0 <= i < |t| => LowerChar(t[i]))
  }

  /** A recorded counter, or its default. */
  function Counter(c: Option<int>, default: int): int {
    if c.Some? then c.value else default
  }

  // ---- the steps

  function AdoptMerge(s: State, e: Event): Outcome
    requires e.MergeAdopted?
  {
    var m := s.evidence.merge;
    if e.prNumber <= 0 || e.laneEpoch <= 0 || Empty(e.child) || Empty(e.repository) || Empty(e.parentBranch)
       || Empty(e.headSha) || Empty(e.journalId) then Err(Guard)
    else if s.phase.RemoteMergeAdopted? then
      Keep(s, && m.repository == Some(e.repository) && m.parentBranch == Some(e.parentBranch)
              && m.prNumber == Some(e.prNumber) && m.headSha == Some(e.headSha)
              && m.journalId == Some(e.journalId) && m.laneEpoch == Some(e.laneEpoch))
    else if !s.phase.NotStarted? then Err(Guard)
    else Construct(RemoteMergeAdopted,
                   NOTHING.(merge := MergeEvidence(
                     Some(e.child), Some(e.repository), Some(e.parentBranch), Some(e.prNumber),
                     Some(e.headSha), Some(e.journalId), Some(e.laneEpoch), None)))
  }

  function SyncBranch(s: State, e: Event): Outcome
    requires e.BranchSynced?
  {
    var m := s.evidence.merge;
    if Empty(e.branch) || Empty(e.commitSha) then Err(Guard)
    else if s.phase.ParentBranchSynced? then
      Keep(s, m.parentBranch == Some(e.branch) && m.parentCommit == Some(e.commitSha))
    else if !s.phase.RemoteMergeAdopted? || m.parentBranch != Some(e.branch) then Err(Guard)
    else Construct(ParentBranchSynced, s.evidence.(merge := m.(parentCommit := Some(e.commitSha))))
  }

  predicate CloseIdentity(c: CloseEvidence, issueId: string, intentId: string) {
    c.issueId == Some(issueId) && c.intentId == Some(intentId)
  }

  function PendClose(s: State, e: Event): Outcome
    requires e.ClosePending?
  {
    var c := s.evidence.close;
    if Empty(e.issueId) || Empty(e.intentId) then Err(Guard)
    else if s.phase.IssueClosePending? then Keep(s, CloseIdentity(c, e.issueId, e.intentId))
    else if !s.phase.ParentBranchSynced? then Err(Guard)
    else Construct(IssueClosePending,
                   s.evidence.(close := c.(issueId := Some(e.issueId), intentId := Some(e.intentId),
                                           attempt := Some(1))))
  }

  function JudgeUnlinked(s: State, e: Event): Outcome
    requires e.UnlinkedJudged?
  {
    var j := s.evidence.judgment;
    var adds := e.decision.AddEntry?;
    if Empty(e.child) || Empty(e.intentId) || Empty(e.reason) || e.decision.OtherDecision? then Err(Guard)
    else if adds && (Empty(e.section) || Empty(e.entry)) then Err(Guard)
    else if !adds && (!Empty(e.section) || !Empty(e.entry)) then Err(Guard)
    else if !s.phase.ParentBranchSynced? || s.evidence.close.issueId.Some? || e.tokens < 0 then Err(Guard)
    else if j.decision.Some? then
      Keep(s, && j.intentId == Some(e.intentId) && j.decision == Some(e.decision)
              && j.reason == Some(Clip(e.reason)) && j.tokens == Some(e.tokens)
              && (!Empty(e.model) ==> j.model == Some(e.model))
              && (adds ==> j.section == Some(e.section) && j.entry == Some(e.entry)))
    else
      Construct(ParentBranchSynced,
                s.evidence.(judgment := j.(
                  intentId := Some(e.intentId), decision := Some(e.decision),
                  reason := Some(Clip(e.reason)), tokens := Some(e.tokens),
                  model := if Empty(e.model) then j.model else Some(e.model),
                  section := if adds then Some(e.section) else j.section,
                  entry := if adds then Some(e.entry) else j.entry)))
  }

  /** The decision an outcome has to follow from. */
  function ExpectedDecision(outcome: LogOutcome): Decision
    requires !outcome.OtherOutcome?
  {
    match outcome
    case WasCaptured => Captured
    case HadNoChangelog => NoChangelog
    case HadFailedJudgment => JudgmentFailed
    case EntryAdded => AddEntry
    case EntryWriteFailed => AddEntry
    case EntryPushFailed => AddEntry
  }

  function FinishUnlinked(s: State, e: Event): Outcome
    requires e.NotApplicableDone?
  {
    var v := s.evidence;
    var added := e.outcome.EntryAdded?;
    if Empty(e.child) || e.outcome.OtherOutcome? then Err(Guard)
    else if s.phase.Complete? then
      Keep(s, && v.close.outcome == Some(NotApplicable) && v.judgment.outcome == Some(e.outcome)
              && v.merge.childId == Some(e.child))
    else if !s.phase.ParentBranchSynced? || v.close.issueId.Some? then Err(Guard)
    else if v.judgment.decision != Some(ExpectedDecision(e.outcome)) then Err(Guard)
    else if added && (Empty(e.entryCommitSha) || Empty(e.entryRemoteHead)) then Err(Guard)
    else if !added && (!Empty(e.entryCommitSha) || !Empty(e.entryRemoteHead)) then Err(Guard)
    else
      Construct(Complete,
                v.(close := v.close.(outcome := Some(NotApplicable)),
                   judgment := v.judgment.(
                     outcome := Some(e.outcome),
                     outcomeDetail := if Empty(e.outcomeDetail) then v.judgment.outcomeDetail
                                      else Some(Clip(e.outcomeDetail))),
                   log := if added then v.log.(commit := Some(e.entryCommitSha)) else v.log,
                   push := if added then v.push.(remoteHead := Some(e.entryRemoteHead)) else v.push))
  }

  function ConfirmClose(s: State, e: Event): Outcome
    requires e.CloseConfirmed?
  {
    var c := s.evidence.close;
    if Empty(e.issueId) || Empty(e.intentId) || Empty(e.closeJournalId) then Err(Guard)
    else if s.phase.IssueCloseConfirmed? then
      Keep(s, CloseIdentity(c, e.issueId, e.intentId) && c.journalId == Some(e.closeJournalId))
    else if !s.phase.IssueClosePending? || !CloseIdentity(c, e.issueId, e.intentId) then Err(Guard)
    else Construct(IssueCloseConfirmed,
                   s.evidence.(close := c.(journalId := Some(e.closeJournalId), outcome := Some(Closed))))
  }

  const CLOSED_STATUS := "closed"

  function AdoptClosed(s: State, e: Event): Outcome
    requires e.CloseAlreadyClosed?
  {
    var c := s.evidence.close;
    if Empty(e.issueId) || Empty(e.intentId) || !CloseIdentity(c, e.issueId, e.intentId) then Err(Guard)
    else if Lower(e.status) != CLOSED_STATUS then Err(Guard)
    else if s.phase.IssueCloseConfirmed? then
      Keep(s, && c.outcome == Some(AlreadyClosed) && c.observedIssueId == Some(e.issueId)
              && c.observedStatus == Some(CLOSED_STATUS))
    else if !s.phase.IssueClosePending? then Err(Guard)
    else Construct(IssueCloseConfirmed,
                   s.evidence.(close := c.(outcome := Some(AlreadyClosed), observedIssueId := Some(e.issueId),
                                           observedStatus := Some(CLOSED_STATUS))))
  }

  function RecordCloseFailure(s: State, e: Event): Outcome
    requires e.CloseFailed?
  {
    var c := s.evidence.close;
    var g := e.failureGeneration;
    var prior := Counter(c.failureGeneration, 0);
    if Empty(e.issueId) || Empty(e.intentId) || !CloseIdentity(c, e.issueId, e.intentId) then Err(Guard)
    else if !s.phase.IssueClosePending? || g <= 0 || Empty(e.detail) then Err(Guard)
    else if g == prior then
      Keep(s, g in c.failures && c.failures[g].kind == e.kind && c.failures[g].detail == Clip(e.detail))
    else if g != prior + 1 then Err(Guard)
    else
      var status := if e.failureStatus.Some? || g !in c.failures then e.failureStatus else c.failures[g].status;
      Construct(IssueClosePending,
                s.evidence.(close := c.(
                  failureGeneration := Some(g), failureAttempt := Some(Counter(c.attempt, 1)),
                  failures := c.failures[g := Failure(e.kind, Clip(e.detail), status)])))
  }

  function AuthorizeCloseRetry(s: State, e: Event): Outcome
    requires e.CloseRetryAuthorized?
  {
    var c := s.evidence.close;
    if Empty(e.issueId) || Empty(e.intentId) || !CloseIdentity(c, e.issueId, e.intentId) then Err(Guard)
    else if !s.phase.IssueClosePending? || e.failureGeneration <= 0 || e.nextAttempt <= 0 then Err(Guard)
    else if Lower(e.status) != "open" && Lower(e.status) != "in_progress" then Err(Guard)
    else if c.failureGeneration != Some(e.failureGeneration) then Err(Guard)
    else if e.nextAttempt != Counter(c.attempt, 1) + 1 then Err(Guard)
    else Construct(IssueClosePending,
                   s.evidence.(close := c.(attempt := Some(e.nextAttempt),
                                           retryGeneration := Some(e.failureGeneration),
                                           retryIssueId := Some(e.issueId),
                                           retryStatus := Some(Lower(e.status)))))
  }

  function PendChangelog(s: State, e: Event): Outcome
    requires e.LogPending?
  {
    var l := s.evidence.log;
    if Empty(e.intentId) || e.generation < 0 then Err(Guard)
    else if s.phase.ChangelogPending? then
      if Has(s.evidence.rebuild.reason) && l.generation == Some(e.generation) && l.intentId != Some(e.intentId)
      then Construct(ChangelogPending,
                     s.evidence.(log := l.(intentId := Some(e.intentId)),
                                 rebuild := s.evidence.rebuild.(applied := true)))
      else Keep(s, l.intentId == Some(e.intentId) && l.generation == Some(e.generation))
    else if !s.phase.IssueCloseConfirmed? then Err(Guard)
    else Construct(ChangelogPending,
                   s.evidence.(log := l.(intentId := Some(e.intentId), generation := Some(e.generation))))
  }

  function CommitChangelog(s: State, e: Event): Outcome
    requires e.LogCommitted?
  {
    var l := s.evidence.log;
    var b := s.evidence.rebuild;
    if Empty(e.intentId) || Empty(e.commitSha) then Err(Guard)
    else if s.phase.ChangelogCommitted? then
      Keep(s, l.intentId == Some(e.intentId) && l.commit == Some(e.commitSha))
    else if !s.phase.ChangelogPending? then Err(Guard)
    else if Has(b.reason) && !b.applied then
      if l.intentId == Some(e.intentId) then Err(Guard)
      else Construct(ChangelogCommitted,
                     s.evidence.(log := l.(intentId := Some(e.intentId), commit := Some(e.commitSha)),
                                 rebuild := b.(applied := true, commit := Some(e.commitSha))))
    else if l.intentId != Some(e.intentId) then Err(Guard)
    else Construct(ChangelogCommitted,
                   s.evidence.(log := l.(commit := Some(e.commitSha)),
                               rebuild := if Has(b.reason) then b.(commit := Some(e.commitSha)) else b))
  }

  /** A push after a rebuild may reuse neither identity of the push that failed. */
  predicate FreshPush(b: RebuildEvidence, intent: string, journal: string) {
    || (b.failedIntent.None? && b.failedJournal.None?)
    || (b.failedIntent.Some? && b.failedJournal.Some?
        && b.failedIntent.value != intent && b.failedJournal.value != journal)
  }

  function PendPush(s: State, e: Event): Outcome
    requires e.PushPending?
  {
    var p := s.evidence.push;
    var m := s.evidence.merge;
    if Empty(e.intentId) || Empty(e.expectedBaseSha) || Empty(e.pushJournal) then Err(Guard)
    else if s.phase.ParentPushPending? then
      Keep(s, && p.intentId == Some(e.intentId) && p.journalId == Some(e.pushJournal)
              && p.expectedBase == Some(e.expectedBaseSha)
              && (e.epoch.Some? ==> m.laneEpoch == e.epoch))
    else if !s.phase.ChangelogCommitted? || !FreshPush(s.evidence.rebuild, e.intentId, e.pushJournal) then Err(Guard)
    else if e.epoch.Some? && e.epoch.value <= 0 then Err(Guard)
    else Construct(ParentPushPending,
                   s.evidence.(push := p.(intentId := Some(e.intentId), journalId := Some(e.pushJournal),
                                          expectedBase := Some(e.expectedBaseSha)),
                               merge := if e.epoch.Some? then m.(laneEpoch := e.epoch) else m))
  }

  function Rebuild(s: State, e: Event): Outcome
    requires e.RebuildRequested?
  {
    var p := s.evidence.push;
    if e.generation <= 0 || Empty(e.failedIntent) || Empty(e.failedJournal) || Empty(e.failedResult)
       || Empty(e.remoteHead) || Empty(e.newBaseSha) || Empty(e.ancestorProof) || Empty(e.rebuildReason)
    then Err(Guard)
    else if !s.phase.ParentPushPending? then Err(Guard)
    else if p.intentId != Some(e.failedIntent) || p.journalId != Some(e.failedJournal) then Err(Guard)
    else if e.generation <= Counter(s.evidence.log.generation, 0) then Err(Guard)
    else Construct(ChangelogPending,
                   s.evidence.(log := s.evidence.log.(generation := Some(e.generation)),
                               push := p.(expectedBase := Some(e.newBaseSha)),
                               rebuild := s.evidence.rebuild.(
                                 failedIntent := Some(e.failedIntent), failedJournal := Some(e.failedJournal),
                                 failedResult := Some(e.failedResult), remoteHead := Some(e.remoteHead),
                                 newBase := Some(e.newBaseSha), ancestorProof := Some(e.ancestorProof),
                                 reason := Some(e.rebuildReason))))
  }

  /** What a push receipt has to match before it can complete the child. */
  predicate ReceiptBinds(v: Evidence, e: Event)
    requires e.PushComplete?
  {
    && v.merge.journalId == Some(e.mergeJournal)
    && v.push.intentId == Some(e.pushIntent)
    && v.push.journalId == Some(e.receipt.pushJournalId)
    && v.push.expectedBase == Some(e.receipt.expectedBaseSha)
    && v.merge.laneEpoch == Some(e.receipt.laneEpoch)
    && v.merge.repository == Some(e.receipt.repository)
    && v.merge.parentBranch == Some(e.receipt.parentBranch)
    && v.log.commit == Some(e.bookkeepingCommit)
    && e.receipt.childId == e.child
    && e.receipt.pushIntentId == e.pushIntent
    && e.receipt.pushedCommit == e.bookkeepingCommit
  }

  function CompletePush(s: State, e: Event): Outcome
    requires e.PushComplete?
  {
    if !s.phase.ParentPushPending? then Err(Guard)
    else if Empty(e.mergeJournal) || Empty(e.pushIntent) || Empty(e.bookkeepingCommit) then Err(Guard)
    else if !ReceiptBinds(s.evidence, e) then Err(Guard)
    else Construct(Complete,
                   s.evidence.(push := s.evidence.push.(
                     receiptId := Some(e.receipt.pushReceiptId), pushedCommit := Some(e.receipt.pushedCommit),
                     bookkeepingCommit := Some(e.bookkeepingCommit), remoteHead := Some(e.receipt.observedRemoteHead),
                     ancestryProof := Some(e.receipt.ancestryProof))))
  }

  /** An exact replay of the receipt that completed the child. */
  predicate ReceiptMatches(v: Evidence, e: Event)
    requires e.PushComplete?
  {
    && v.merge.childId == Some(e.child)
    && v.merge.journalId == Some(e.mergeJournal)
    && v.push.intentId == Some(e.pushIntent)
    && v.push.journalId == Some(e.receipt.pushJournalId)
    && v.push.receiptId == Some(e.receipt.pushReceiptId)
    && v.push.pushedCommit == Some(e.receipt.pushedCommit)
    && v.push.bookkeepingCommit == Some(e.bookkeepingCommit)
    && v.push.remoteHead == Some(e.receipt.observedRemoteHead)
    && v.push.ancestryProof == Some(e.receipt.ancestryProof)
  }

  function Dispatch(s: State, e: Event): Outcome {
    match e
    case MergeAdopted(_, _, _, _, _, _, _) => AdoptMerge(s, e)
    case BranchSynced(_, _, _) => SyncBranch(s, e)
    case ClosePending(_, _, _) => PendClose(s, e)
    case CloseConfirmed(_, _, _, _) => ConfirmClose(s, e)
    case CloseAlreadyClosed(_, _, _, _) => AdoptClosed(s, e)
    case CloseFailed(_, _, _, _, _, _, _) => RecordCloseFailure(s, e)
    case CloseRetryAuthorized(_, _, _, _, _, _) => AuthorizeCloseRetry(s, e)
    case UnlinkedJudged(_, _, _, _, _, _, _, _) => JudgeUnlinked(s, e)
    case NotApplicableDone(_, _, _, _, _) => FinishUnlinked(s, e)
    case LogPending(_, _, _) => PendChangelog(s, e)
    case LogCommitted(_, _, _) => CommitChangelog(s, e)
    case PushPending(_, _, _, _, _) => PendPush(s, e)
    case PushComplete(_, _, _, _, _) => CompletePush(s, e)
    case RebuildRequested(_, _, _, _, _, _, _, _, _) => Rebuild(s, e)
  }

  /** Apply exactly one post-merge edge or reject the event. */
  function Advance(s: State, e: Event): Outcome {
    if s.phase.Complete? then
      if e.PushComplete? && ReceiptMatches(s.evidence, e) then Ok(s)
      else if e.NotApplicableDone? then FinishUnlinked(s, e)
      else Err(Guard)
    else if !s.phase.NotStarted? && (Empty(e.child) || s.evidence.merge.childId != Some(e.child)) then Err(Guard)
    else Dispatch(s, e)
  }
}
