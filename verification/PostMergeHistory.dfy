/** What a post-merge state says of the run that led to it, and which expected bounds a run can break. */
module PostMergeHistory {
  import opened Prelude
  import opened PostMerge
  import opened PostMergeRuns

  /** The n-th event of the run is accepted where it arrives. */
  predicate Accepted(s: State, events: seq<Event>, n: int) {
    0 <= n < |events| && Advance(After(s, events[..n]), events[n]).Ok?
  }

  lemma {:induction false} AfterJoined(s: State, a: seq<Event>, b: seq<Event>)
    ensures After(s, a + b) == After(After(s, a), b)
    decreases |a|
  {
    hide StepOrStay;
    if a == [] {
      assert a + b == b;
    } else {
      assert (a + b)[1..] == a[1..] + b;
      AfterJoined(StepOrStay(s, a[0]), a[1..], b);
    }
  }

  /** The run up to and including an accepted event. */
  lemma AfterAccepted(s: State, events: seq<Event>, i: int)
    requires Accepted(s, events, i)
    ensures After(s, events) == After(Advance(After(s, events[..i]), events[i]).value, events[i + 1..])
  {
    var rest := events[i..];
    assert events == events[..i] + rest;
    AfterJoined(s, events[..i], rest);
    assert rest[1..] == events[i + 1..] && rest[0] == events[i];
  }

  // ---- the newest failed push

  /** Only a rebuild files the identity of a failed push. */
  lemma OnlyRebuildsFileFailures(s: State, e: Event)
    requires s.phase.NotStarted? ==> s.evidence == NOTHING
    requires !e.RebuildRequested? && Advance(s, e).Ok?
    ensures var t := Advance(s, e).value.evidence.rebuild;
            t.failedIntent == s.evidence.rebuild.failedIntent && t.failedJournal == s.evidence.rebuild.failedJournal
  {
  }

  lemma {:induction false} FailureStays(s: State, events: seq<Event>)
    requires Reachable(s) && forall n :: Accepted(s, events, n) ==> !events[n].RebuildRequested?
    ensures var t := After(s, events).evidence.rebuild;
            t.failedIntent == s.evidence.rebuild.failedIntent && t.failedJournal == s.evidence.rebuild.failedJournal
    decreases |events|
  {
    assert s.phase.NotStarted? ==> s.evidence == NOTHING;
    hide Advance, Reachable;
    if events != [] {
      StepKeeps(s, events[0]);
      var next := StepOrStay(s, events[0]);
      var rest := events[1..];
      assert After(s, events[..0]) == s by { assert events[..0] == []; }
      if Advance(s, events[0]).Ok? {
        assert Accepted(s, events, 0);
        OnlyRebuildsFileFailures(s, events[0]);
      }
      forall n | Accepted(next, rest, n) ensures !rest[n].RebuildRequested? {
        assert events[..n + 1][0] == events[0] && events[..n + 1][1..] == rest[..n];
        assert Accepted(s, events, n + 1);
      }
      FailureStays(next, rest);
    }
  }

  /** What is accepted after an accepted event is accepted in the whole run. */
  lemma SuffixAccepts(s: State, events: seq<Event>, i: int, n: int)
    requires Accepted(s, events, i)
    requires Accepted(Advance(After(s, events[..i]), events[i]).value, events[i + 1..], n)
    ensures Accepted(s, events, i + 1 + n) && events[i + 1 + n] == events[i + 1..][n]
  {
    hide Advance;
    var k := i + 1 + n;
    assert events[..k] == events[..i] + events[i..k];
    AfterJoined(s, events[..i], events[i..k]);
    assert events[i..k][0] == events[i] && events[i..k][1..] == events[i + 1..][..n];
  }

  /** From its newest accepted rebuild on, a run keeps the identity of the push that rebuild declared failed. */
  lemma FailureOnRecord(events: seq<Event>, i: int)
    requires Accepted(FRESH, events, i) && events[i].RebuildRequested?
    requires forall k :: i < k && Accepted(FRESH, events, k) ==> !events[k].RebuildRequested?
    ensures After(FRESH, events).evidence.rebuild.failedIntent == Some(events[i].failedIntent)
    ensures After(FRESH, events).evidence.rebuild.failedJournal == Some(events[i].failedJournal)
  {
    hide Advance;
    var before := After(FRESH, events[..i]);
    RunsAreReachable(FRESH, events[..i]);
    StepKeeps(before, events[i]);
    hide Reachable;
    var rebuilt := Advance(before, events[i]).value;
    RebuildFilesTheFailedAttempt(before, events[i]);
    AfterAccepted(FRESH, events, i);
    var rest := events[i + 1..];
    forall n | Accepted(rebuilt, rest, n) ensures !rest[n].RebuildRequested? {
      SuffixAccepts(FRESH, events, i, n);
    }
    FailureStays(rebuilt, rest);
  }

  /**
   In a run with rebuilds, a linked completion pushed under an intent and a journal that both differ from
   those of the push its newest accepted rebuild declared failed.
   */
  lemma CompletionIsFreshAfterTheNewestRebuild(events: seq<Event>, i: int)
    requires Accepted(FRESH, events, i) && events[i].RebuildRequested?
    requires forall k :: i < k && Accepted(FRESH, events, k) ==> !events[k].RebuildRequested?
    requires After(FRESH, events).phase.Complete? && Linked(After(FRESH, events))
    ensures var p := After(FRESH, events).evidence.push;
            && p.intentId.Some? && p.intentId != Some(events[i].failedIntent)
            && p.journalId.Some? && p.journalId != Some(events[i].failedJournal)
  {
    hide Advance, After, Reachable;
    FailureOnRecord(events, i);
    CompletionIsRecorded(events);
  }

  // ---- the changelog intent of a rebuild

  /** While a rebuild waits for its commit, the commit has to name the intent on record exactly when one was applied. */
  lemma CommitAcceptedIff(t: State, child: string, intent: string, commit: string)
    requires Reachable(t) && t.phase.ChangelogPending? && Has(t.evidence.rebuild.reason)
    requires t.evidence.merge.childId == Some(child)
    ensures Advance(t, LogCommitted(child, intent, commit)).Ok?
       <==> && !Empty(intent) && !Empty(commit)
            && (t.evidence.rebuild.applied <==> t.evidence.log.intentId == Some(intent))
    ensures Advance(t, LogCommitted(child, intent, commit)).Ok? ==>
              var u := Advance(t, LogCommitted(child, intent, commit)).value;
              u.phase.ChangelogCommitted?
              && u.evidence.log.intentId == Some(intent) && u.evidence.log.commit == Some(commit)
  {
    CommitChangelogKeeps(t, LogCommitted(child, intent, commit));
  }

  lemma RebuildLeaves(s: State, rb: Event)
    requires Reachable(s) && rb.RebuildRequested? && Advance(s, rb).Ok?
    ensures var t := Advance(s, rb).value;
            && Reachable(t) && t.phase.ChangelogPending? && Has(t.evidence.rebuild.reason)
            && t.evidence.rebuild.applied == s.evidence.rebuild.applied
            && t.evidence.log.intentId == s.evidence.log.intentId && Has(t.evidence.log.intentId)
            && t.evidence.log.generation == Some(rb.generation)
            && t.evidence.merge.childId == Some(rb.child) && rb.generation > 0 && !Empty(rb.child)
  {
    StepKeeps(s, rb);
  }

  /**
   A commit right after a rebuild may reuse the intent of the failed generation exactly when the mark of
   an applied rebuild was already set before it; nothing clears that mark.
   */
  lemma RebuildMayReuseItsIntentIff(s: State, rb: Event, intent: string, commit: string)
    requires Reachable(s) && rb.RebuildRequested? && Advance(s, rb).Ok?
    requires s.evidence.log.intentId == Some(intent)
    ensures Advance(Advance(s, rb).value, LogCommitted(rb.child, intent, commit)).Ok?
       <==> !Empty(commit) && s.evidence.rebuild.applied
  {
    RebuildLeaves(s, rb);
    hide Advance;
    CommitAcceptedIff(Advance(s, rb).value, rb.child, intent, commit);
  }

  /** What a changelog intent event does while a rebuild waits for its commit. */
  lemma PendingSwapsIff(t: State, child: string, intent: string, generation: int)
    requires Reachable(t) && t.phase.ChangelogPending? && Has(t.evidence.rebuild.reason)
    requires t.evidence.merge.childId == Some(child)
    ensures var next := StepOrStay(t, LogPending(child, intent, generation));
            var swaps := !Empty(intent) && t.evidence.log.generation == Some(generation)
                         && t.evidence.log.intentId != Some(intent);
            && Reachable(next) && next.phase.ChangelogPending? && Has(next.evidence.rebuild.reason)
            && next.evidence.merge.childId == t.evidence.merge.childId
            && next.evidence.log.generation == t.evidence.log.generation
            && next.evidence.rebuild.applied == (t.evidence.rebuild.applied || swaps)
            && next.evidence.log.intentId == if swaps then Some(intent) else t.evidence.log.intentId
  {
    StepKeeps(t, LogPending(child, intent, generation));
  }

  /**
   Announcing another intent and then the old one again sets the mark too: after those two events the commit
   reuses the failed intent exactly when the mark was set before, or the other intent is a different one and
   both events carry the new generation.
   */
  lemma AnnouncedIntentMayReturnIff(s: State, rb: Event, other: string, generation: int, intent: string, commit: string)
    requires Reachable(s) && rb.RebuildRequested? && Advance(s, rb).Ok?
    requires s.evidence.log.intentId == Some(intent)
    ensures var announced := [LogPending(rb.child, other, generation), LogPending(rb.child, intent, generation)];
            Advance(After(Advance(s, rb).value, announced), LogCommitted(rb.child, intent, commit)).Ok?
            <==> && !Empty(commit)
                 && (s.evidence.rebuild.applied
                     || (!Empty(other) && other != intent && generation == rb.generation))
  {
    RebuildLeaves(s, rb);
    hide Advance, StepOrStay, Reachable;
    var t := Advance(s, rb).value;
    var u := StepOrStay(t, LogPending(rb.child, other, generation));
    var v := StepOrStay(u, LogPending(rb.child, intent, generation));
    PendingSwapsIff(t, rb.child, other, generation);
    PendingSwapsIff(u, rb.child, intent, generation);
    CommitAcceptedIff(v, rb.child, intent, commit);
    TwoEvents(t, LogPending(rb.child, other, generation), LogPending(rb.child, intent, generation));
  }

  lemma TwoEvents(s: State, e: Event, f: Event)
    ensures After(s, [e, f]) == StepOrStay(StepOrStay(s, e), f)
  {
    hide StepOrStay;
    var next := StepOrStay(s, e);
    assert [e, f][1..] == [f] && [f][1..] == [];
    assert After(s, [e, f]) == After(next, [f]);
    assert After(next, [f]) == After(StepOrStay(next, f), []);
  }

  // ---- concrete runs

  /** Every event leads from one state to the next. */
  predicate Trace(states: seq<State>, events: seq<Event>) {
    && |states| == |events| + 1
    && forall i, j :: 0 <= i < |events| && j == i + 1 ==> Advance(states[i], events[i]) == Ok(states[j])
  }

  lemma {:induction false} TraceIsARun(states: seq<State>, events: seq<Event>)
    requires Trace(states, events)
    ensures After(states[0], events) == states[|events|]
    decreases |events|
  {
    hide Advance;
    if events != [] {
      assert Advance(states[0], events[0]) == Ok(states[1]);
      forall i, j | 0 <= i < |events[1..]| && j == i + 1
        ensures Advance(states[1..][i], events[1..][i]) == Ok(states[1..][j])
      {
        assert Advance(states[i + 1], events[i + 1]) == Ok(states[j + 1]);
      }
      TraceIsARun(states[1..], events[1..]);
    }
  }

  const MERGED := MergeEvidence(Some("c"), Some("r"), Some("b"), Some(1), Some("h"), Some("m"), Some(1), None)
  const SYNCED := MERGED.(parentCommit := Some("s"))
  const CLOSING := NOTHING.close.(issueId := Some("7"), intentId := Some("k"), attempt := Some(1))
  const CLOSED := CLOSING.(journalId := Some("j"), outcome := Some(Closed))

  function Opening(): seq<State> {
    [FRESH, State(RemoteMergeAdopted, NOTHING.(merge := MERGED)),
     State(ParentBranchSynced, NOTHING.(merge := SYNCED)),
     State(IssueClosePending, NOTHING.(merge := SYNCED, close := CLOSING))]
  }

  const OPENING := [
    MergeAdopted("c", 1, "h", "m", "r", "b", 1), BranchSynced("c", "b", "s"), ClosePending("c", "7", "k")]

  lemma OpeningIsARun()
    ensures After(FRESH, OPENING) == State(IssueClosePending, NOTHING.(merge := SYNCED, close := CLOSING))
  {
    TraceIsARun(Opening(), OPENING);
  }

  /** A child whose issue is closed, with its changelog, push and rebuild evidence. */
  function Stage(phase: Phase, log: LogEvidence, push: PushEvidence, rebuild: RebuildEvidence): State {
    State(phase, NOTHING.(merge := SYNCED, close := CLOSED, log := log, push := push, rebuild := rebuild))
  }

  function Log(intent: string, generation: int, commit: Text): LogEvidence {
    LogEvidence(Some(intent), Some(generation), commit)
  }

  function Push(intent: string, journal: string, base: string): PushEvidence {
    NOTHING.push.(intentId := Some(intent), journalId := Some(journal), expectedBase := Some(base))
  }

  function Rebuilt(intent: string, journal: string, applied: bool, commit: Text): RebuildEvidence {
    RebuildEvidence(Some(intent), Some(journal), Some("no"), Some("g"), Some("t"), Some("a"), Some("w"),
                    applied, commit)
  }

  function RebuildOf(generation: int, intent: string, journal: string): Event {
    RebuildRequested("c", generation, intent, journal, "no", "g", "t", "a", "w")
  }

  /** Close, commit under `i1` and push. */
  const FIRST_PUSH := [
    CloseConfirmed("c", "7", "k", "j"), LogPending("c", "i1", 0), LogCommitted("c", "i1", "c1"),
    PushPending("c", "p1", "s", "j1", None)]

  /** The push failed: rebuild, commit under `i2` and push again. */
  const FIRST_REBUILD := [
    RebuildOf(1, "p1", "j1"), LogCommitted("c", "i2", "c2"), PushPending("c", "p2", "t", "j2", None)]

  function ToFirstPush(): seq<State> {
    [State(IssueClosePending, NOTHING.(merge := SYNCED, close := CLOSING)),
     Stage(IssueCloseConfirmed, NOTHING.log, NOTHING.push, NOTHING.rebuild),
     Stage(ChangelogPending, Log("i1", 0, None), NOTHING.push, NOTHING.rebuild),
     Stage(ChangelogCommitted, Log("i1", 0, Some("c1")), NOTHING.push, NOTHING.rebuild),
     FirstPush()]
  }

  function FirstPush(): State {
    Stage(ParentPushPending, Log("i1", 0, Some("c1")), Push("p1", "j1", "s"), NOTHING.rebuild)
  }

  function ToSecondPush(): seq<State> {
    [FirstPush(),
     Stage(ChangelogPending, Log("i1", 1, Some("c1")), Push("p1", "j1", "t"), Rebuilt("p1", "j1", false, None)),
     Stage(ChangelogCommitted, Log("i2", 1, Some("c2")), Push("p1", "j1", "t"), Rebuilt("p1", "j1", true, Some("c2"))),
     SecondPush()]
  }

  function SecondPush(): State {
    Stage(ParentPushPending, Log("i2", 1, Some("c2")), Push("p2", "j2", "t"), Rebuilt("p1", "j1", true, Some("c2")))
  }

  function SecondRebuild(): State {
    Stage(ChangelogPending, Log("i2", 2, Some("c2")), Push("p2", "j2", "t"), Rebuilt("p2", "j2", true, Some("c2")))
  }

  lemma FirstPushSteps()
    ensures Advance(ToFirstPush()[0], FIRST_PUSH[0]) == Ok(ToFirstPush()[1])
    ensures Advance(ToFirstPush()[1], FIRST_PUSH[1]) == Ok(ToFirstPush()[2])
  {
  }

  lemma FirstPushLastSteps()
    ensures Advance(ToFirstPush()[2], FIRST_PUSH[2]) == Ok(ToFirstPush()[3])
    ensures Advance(ToFirstPush()[3], FIRST_PUSH[3]) == Ok(ToFirstPush()[4])
  {
  }

  lemma FirstPushTrace()
    ensures Trace(ToFirstPush(), FIRST_PUSH)
  {
    FirstPushSteps();
    FirstPushLastSteps();
    hide Advance;
  }

  lemma SecondPushSteps()
    ensures Advance(ToSecondPush()[0], FIRST_REBUILD[0]) == Ok(ToSecondPush()[1])
  {
  }

  lemma SecondPushLastSteps()
    ensures Advance(ToSecondPush()[1], FIRST_REBUILD[1]) == Ok(ToSecondPush()[2])
    ensures Advance(ToSecondPush()[2], FIRST_REBUILD[2]) == Ok(ToSecondPush()[3])
  {
  }

  lemma SecondPushTrace()
    ensures Trace(ToSecondPush(), FIRST_REBUILD)
  {
    SecondPushSteps();
    SecondPushLastSteps();
    hide Advance;
  }

  lemma SecondRebuildStep()
    ensures Advance(SecondPush(), RebuildOf(2, "p2", "j2")) == Ok(SecondRebuild())
  {
  }

  lemma SecondPushIsReached()
    ensures After(FRESH, OPENING + FIRST_PUSH + FIRST_REBUILD) == SecondPush()
  {
    OpeningIsARun();
    FirstPushTrace();
    SecondPushTrace();
    hide Trace, ToFirstPush, ToSecondPush, After;
    TraceIsARun(ToFirstPush(), FIRST_PUSH);
    TraceIsARun(ToSecondPush(), FIRST_REBUILD);
    AfterJoined(FRESH, OPENING, FIRST_PUSH);
    AfterJoined(FRESH, OPENING + FIRST_PUSH, FIRST_REBUILD);
    TraceEnds();
  }

  lemma TraceEnds()
    ensures ToFirstPush()[0] == State(IssueClosePending, NOTHING.(merge := SYNCED, close := CLOSING))
    ensures ToFirstPush()[|FIRST_PUSH|] == FirstPush() == ToSecondPush()[0]
    ensures ToSecondPush()[|FIRST_REBUILD|] == SecondPush()
  {
  }

  /**
   A run in which the commit of the failed generation comes again after a second rebuild, late and unchanged
   or with another commit: it is accepted, under the intent the failed push was made with.
   */
  lemma SecondRebuildReusesItsIntent(commit: string)
    requires !Empty(commit)
    ensures LogCommitted("c", "i2", "c2") in FIRST_REBUILD
    ensures var rebuilt := After(FRESH, OPENING + FIRST_PUSH + FIRST_REBUILD + [RebuildOf(2, "p2", "j2")]);
            && rebuilt.phase.ChangelogPending? && rebuilt.evidence.log.generation == Some(2)
            && Advance(rebuilt, LogCommitted("c", "i2", commit)).Ok?
            && Advance(rebuilt, LogCommitted("c", "i2", commit)).value.phase.ChangelogCommitted?
            && Advance(rebuilt, LogCommitted("c", "i2", commit)).value.evidence.log.intentId == Some("i2")
            && Advance(rebuilt, LogCommitted("c", "i2", commit)).value.evidence.log.commit == Some(commit)
  {
    var before := OPENING + FIRST_PUSH + FIRST_REBUILD;
    var rb := RebuildOf(2, "p2", "j2");
    assert FIRST_REBUILD[1] == LogCommitted("c", "i2", "c2");
    SecondPushIsReached();
    SecondRebuildStep();
    RunsAreReachable(FRESH, before);
    hide Advance, Reachable, Stage, After;
    OneEvent(SecondPush(), rb);
    AfterJoined(FRESH, before, [rb]);
    RebuildLeaves(SecondPush(), rb);
    SecondPushLog();
    CommitAcceptedIff(SecondRebuild(), rb.child, "i2", commit);
  }

  lemma SecondPushLog()
    ensures SecondPush().evidence.rebuild.applied && SecondPush().evidence.log.intentId == Some("i2")
  {
  }

  lemma OneEvent(s: State, e: Event)
    ensures After(s, [e]) == StepOrStay(s, e)
  {
    assert [e][1..] == [];
  }

  // ---- attempts and failures of the issue close

  /** One attempt more than there are failures is all a retry after each failure would need. */
  predicate AttemptsBounded(c: CloseEvidence) {
    Counter(c.attempt, 1) <= Counter(c.failureGeneration, 0) + 1
  }

  /** The retry answers a failure that no earlier retry has answered. */
  predicate Earned(s: State, e: Event) {
    e.CloseRetryAuthorized? && Advance(s, e).Ok? ==>
      Counter(s.evidence.close.attempt, 1) <= Counter(s.evidence.close.failureGeneration, 0)
  }

  lemma AttemptsStayBoundedIff(s: State, e: Event)
    requires Reachable(s) && CloseBooks(s.evidence.close) && AttemptsBounded(s.evidence.close) && Advance(s, e).Ok?
    ensures AttemptsBounded(Advance(s, e).value.evidence.close) <==> Earned(s, e)
  {
    if !WritesClose(e) {
      OthersKeepClose(s, e);
      hide Advance, Reachable, CloseBooks;
    } else {
      WritersStayBoundedIff(s, e);
    }
  }

  lemma WritersStayBoundedIff(s: State, e: Event)
    requires Reachable(s) && AttemptsBounded(s.evidence.close) && Advance(s, e).Ok? && WritesClose(e)
    requires CloseBooks(s.evidence.close)
    ensures AttemptsBounded(Advance(s, e).value.evidence.close) <==> Earned(s, e)
  {
  }

  /** The bound holds at every point of the run. */
  predicate BoundedThroughout(s: State, events: seq<Event>)
    decreases |events|
  {
    AttemptsBounded(s.evidence.close)
    && (events == [] || BoundedThroughout(StepOrStay(s, events[0]), events[1..]))
  }

  predicate EarnedThroughout(s: State, events: seq<Event>)
    decreases |events|
  {
    events == [] || (Earned(s, events[0]) && EarnedThroughout(StepOrStay(s, events[0]), events[1..]))
  }

  /** Along a run the attempts stay within the failures plus one exactly when every accepted retry is earned. */
  lemma {:induction false} AttemptsBoundedThroughoutIff(s: State, events: seq<Event>)
    requires Reachable(s) && CloseBooks(s.evidence.close) && AttemptsBounded(s.evidence.close)
    ensures BoundedThroughout(s, events) <==> EarnedThroughout(s, events)
    decreases |events|
  {
    hide Reachable, CloseBooks, AttemptsBounded, Advance;
    if events != [] {
      var e := events[0];
      StepKeeps(s, e);
      if Advance(s, e).Ok? {
        CloseBooksStep(s, e);
        AttemptsStayBoundedIff(s, e);
        if Earned(s, e) { AttemptsBoundedThroughoutIff(StepOrStay(s, e), events[1..]); }
      } else {
        RefusedIsEarned(s, e);
        AttemptsBoundedThroughoutIff(s, events[1..]);
      }
    }
  }

  lemma RefusedIsEarned(s: State, e: Event)
    requires !Advance(s, e).Ok?
    ensures Earned(s, e)
  {
  }

  const RETRIES := [
    CloseFailed("c", "7", "k", 1, Timeout, "slow", None),
    CloseRetryAuthorized("c", "7", "k", 1, 2, "open"), CloseRetryAuthorized("c", "7", "k", 1, 3, "open")]

  const FAILED_ONCE := CLOSING.(
    failureGeneration := Some(1), failureAttempt := Some(1), failures := map[1 := Failure(Timeout, "slow", None)])
  const RETRIED_ONCE := FAILED_ONCE.(
    attempt := Some(2), retryGeneration := Some(1), retryIssueId := Some("7"), retryStatus := Some("open"))
  const RETRIED_TWICE := RETRIED_ONCE.(attempt := Some(3))

  function Waiting(close: CloseEvidence): State {
    State(IssueClosePending, NOTHING.(merge := SYNCED, close := close))
  }

  lemma RetrySteps()
    ensures Advance(Waiting(CLOSING), RETRIES[0]) == Ok(Waiting(FAILED_ONCE))
    ensures Advance(Waiting(FAILED_ONCE), RETRIES[1]) == Ok(Waiting(RETRIED_ONCE))
    ensures Advance(Waiting(RETRIED_ONCE), RETRIES[2]) == Ok(Waiting(RETRIED_TWICE))
  {
    assert Lower("open") == "open";
  }

  /** A run that breaks the bound: one failure is answered twice. */
  lemma RetriesOutnumberFailures()
    ensures var c := After(FRESH, OPENING + RETRIES).evidence.close;
            c.attempt == Some(3) && c.failureGeneration == Some(1) && !AttemptsBounded(c)
  {
    OpeningIsARun();
    RetrySteps();
    hide Advance;
    TraceIsARun([Waiting(CLOSING), Waiting(FAILED_ONCE), Waiting(RETRIED_ONCE), Waiting(RETRIED_TWICE)], RETRIES);
    hide After;
    AfterJoined(FRESH, OPENING, RETRIES);
  }
}
