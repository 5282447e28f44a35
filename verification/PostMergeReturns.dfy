/** Failed pushes that come back: late copies after a rebuild, and completions under an older failed push. */
module PostMergeReturns {
  import opened Prelude
  import opened PostMerge
  import opened PostMergeRuns
  import opened PostMergeHistory
  import opened PostMergeReplay

  // ---- when a failed push may come back

  predicate EpochPositive(s: State) {
    s.evidence.merge.laneEpoch.Some? ==> s.evidence.merge.laneEpoch.value > 0
  }

  lemma StepKeepsEpoch(s: State, e: Event)
    requires EpochPositive(s) && Advance(s, e).Ok?
    ensures EpochPositive(Advance(s, e).value)
  {
  }

  lemma {:induction false} EpochStaysPositive(s: State, events: seq<Event>)
    requires EpochPositive(s)
    ensures EpochPositive(After(s, events))
    decreases |events|
  {
    hide Advance, EpochPositive;
    if events != [] {
      if Advance(s, events[0]).Ok? { StepKeepsEpoch(s, events[0]); }
      EpochStaysPositive(StepOrStay(s, events[0]), events[1..]);
    }
  }

  /** An accepted rebuild is of the child of the run, and names a push by non-empty texts. */
  lemma RebuildIsOfTheChild(events: seq<Event>, i: int)
    requires Accepted(FRESH, events, i) && events[i].RebuildRequested?
    ensures After(FRESH, events).evidence.merge.childId == Some(events[i].child)
    ensures !Empty(events[i].child) && !Empty(events[i].failedIntent) && !Empty(events[i].failedJournal)
  {
    var before := After(FRESH, events[..i]);
    RunsAreReachable(FRESH, events[..i]);
    RebuildLeaves(before, events[i]);
    RebuildNamesAPush(before, events[i]);
    AfterAccepted(FRESH, events, i);
    RunsOnlyAdd(Advance(before, events[i]).value, events[i + 1..]);
    hide Advance, Reachable;
  }

  lemma RebuildNamesAPush(s: State, rb: Event)
    requires rb.RebuildRequested? && Advance(s, rb).Ok?
    ensures !Empty(rb.failedIntent) && !Empty(rb.failedJournal)
  {
  }

  /** A push after the commit is accepted exactly when it shares nothing with the push declared failed last. */
  lemma PushAcceptedIff(u: State, push: Event)
    requires Reachable(u) && u.phase.ChangelogCommitted? && push.PushPending?
    requires u.evidence.merge.childId == Some(push.child) && !Empty(push.child)
    requires !Empty(push.intentId) && !Empty(push.expectedBaseSha) && !Empty(push.pushJournal) && push.epoch.None?
    ensures Advance(u, push).Ok? <==>
              u.evidence.rebuild.failedIntent != Some(push.intentId)
              && u.evidence.rebuild.failedJournal != Some(push.pushJournal)
    ensures Advance(u, push).Ok? ==>
              var t := Advance(u, push).value;
              && t.phase.ParentPushPending? && t.evidence.push.intentId == Some(push.intentId)
              && t.evidence.push.journalId == Some(push.pushJournal)
  {
    PendPushKeeps(u, push);
  }

  lemma RefusedPushLeaves(u: State, push: Event)
    requires Reachable(u) && u.phase.ChangelogCommitted? && push.PushPending?
    requires u.evidence.rebuild.failedIntent == Some(push.intentId)
             || u.evidence.rebuild.failedJournal == Some(push.pushJournal)
    ensures StepOrStay(u, push) == u
  {
  }

  /** The receipt a pending push is completed by. */
  function ReceiptFor(t: State): (e: Event)
    requires Reachable(t) && t.phase.ParentPushPending? && EpochPositive(t)
    ensures e.PushComplete?
  {
    var v := t.evidence;
    PushComplete(v.merge.childId.value, v.merge.journalId.value, v.push.intentId.value, v.log.commit.value,
                 PushReceipt(v.merge.repository.value, v.merge.parentBranch.value, v.merge.childId.value,
                             v.merge.laneEpoch.value, v.push.intentId.value, v.push.journalId.value, "receipt",
                             v.push.expectedBase.value, v.log.commit.value, "head", "proof"))
  }

  lemma ReceiptCompletes(t: State)
    requires Reachable(t) && t.phase.ParentPushPending? && EpochPositive(t)
    ensures Advance(t, ReceiptFor(t)).Ok? && Advance(t, ReceiptFor(t)).value.phase.Complete?
  {
  }

  lemma NoPushNoCompletion(u: State, e: Event)
    requires u.phase.ChangelogCommitted?
    ensures !StepOrStay(u, e).phase.Complete?
  {
  }

  /** Some push under this identity, and some receipt for it, complete the child. */
  ghost predicate MayComplete(u: State, intent: string, journal: string) {
    exists push: Event, receipt: Event ::
      push.PushPending? && push.intentId == intent && push.pushJournal == journal
      && After(u, [push, receipt]).phase.Complete?
  }

  /**
   A failed push of the run, however old, may be announced again and complete the child if and only if the
   newest accepted rebuild declared another push failed, under another intent and another journal.
   */
  lemma FailedPushMayCompleteIff(events: seq<Event>, i: int, k: int)
    requires Accepted(FRESH, events, i) && events[i].RebuildRequested?
    requires Accepted(FRESH, events, k) && events[k].RebuildRequested?
    requires forall n :: k < n && Accepted(FRESH, events, n) ==> !events[n].RebuildRequested?
    requires After(FRESH, events).phase.ChangelogCommitted?
    ensures MayComplete(After(FRESH, events), events[i].failedIntent, events[i].failedJournal) <==>
              events[i].failedIntent != events[k].failedIntent && events[i].failedJournal != events[k].failedJournal
  {
    var u := After(FRESH, events);
    var intent, journal := events[i].failedIntent, events[i].failedJournal;
    RunsAreReachable(FRESH, events);
    EpochStaysPositive(FRESH, events);
    RebuildIsOfTheChild(events, i);
    FailureOnRecord(events, k);
    hide Advance, Reachable, After, EpochPositive, StepOrStay;
    if intent != events[k].failedIntent && journal != events[k].failedJournal {
      FreshIdentityCompletes(u, PushPending(events[i].child, intent, "base", journal, None));
    } else if push: Event, receipt: Event :|
      push.PushPending? && push.intentId == intent && push.pushJournal == journal
      && After(u, [push, receipt]).phase.Complete?
    {
      TwoEvents(u, push, receipt);
      RefusedPushLeaves(u, push);
      NoPushNoCompletion(u, receipt);
      assert false;
    }
  }

  lemma FreshIdentityCompletes(u: State, push: Event)
    requires Reachable(u) && EpochPositive(u) && u.phase.ChangelogCommitted? && push.PushPending?
    requires u.evidence.merge.childId == Some(push.child) && !Empty(push.child)
    requires !Empty(push.intentId) && !Empty(push.expectedBaseSha) && !Empty(push.pushJournal) && push.epoch.None?
    requires u.evidence.rebuild.failedIntent != Some(push.intentId)
    requires u.evidence.rebuild.failedJournal != Some(push.pushJournal)
    ensures MayComplete(u, push.intentId, push.pushJournal)
  {
    hide Advance, Reachable, After, EpochPositive;
    PushAcceptedIff(u, push);
    StepKeeps(u, push);
    StepKeepsEpoch(u, push);
    var t := Advance(u, push).value;
    ReceiptCompletes(t);
    TwoEvents(u, push, ReceiptFor(t));
    assert After(u, [push, ReceiptFor(t)]).phase.Complete?;
  }

  // ---- runs in which late copies change something

  /** The first rebuild, and two intents announced for its generation. */
  const ANNOUNCED := [RebuildOf(1, "p1", "j1"), LogPending("c", "x", 1), LogPending("c", "y", 1)]

  function Announced(intent: string): State {
    Stage(ChangelogPending, Log(intent, 1, Some("c1")), Push("p1", "j1", "t"), Rebuilt("p1", "j1", true, None))
  }

  function ToAnnounced(): seq<State> {
    [FirstPush(),
     Stage(ChangelogPending, Log("i1", 1, Some("c1")), Push("p1", "j1", "t"), Rebuilt("p1", "j1", false, None)),
     Announced("x"), Announced("y")]
  }

  lemma AnnouncedSteps()
    ensures Advance(ToAnnounced()[0], ANNOUNCED[0]) == Ok(ToAnnounced()[1])
    ensures Advance(ToAnnounced()[1], ANNOUNCED[1]) == Ok(ToAnnounced()[2])
    ensures Advance(ToAnnounced()[2], ANNOUNCED[2]) == Ok(ToAnnounced()[3])
  {
  }

  lemma AnnouncedCopy()
    ensures ANNOUNCED[1] == LogPending("c", "x", 1)
    ensures Advance(Announced("y"), ANNOUNCED[1]) == Ok(Announced("x")) && Announced("x") != Announced("y")
  {
    assert Announced("x").evidence.log.intentId == Some("x") && Announced("y").evidence.log.intentId == Some("y");
  }

  /** With a rebuild before it, but none in between, a late copy of an announced intent replaces the newer one. */
  lemma LateIntentReplacesTheNewer()
    ensures After(FRESH, OPENING + FIRST_PUSH + ANNOUNCED) == Announced("y")
    ensures ANNOUNCED[1] == LogPending("c", "x", 1)
    ensures Advance(Announced("y"), ANNOUNCED[1]) == Ok(Announced("x")) && Announced("x") != Announced("y")
  {
    AnnouncedSteps();
    AnnouncedCopy();
    FirstPushIsReached();
    hide Advance, After, Stage;
    assert Trace(ToAnnounced(), ANNOUNCED);
    TraceIsARun(ToAnnounced(), ANNOUNCED);
    AfterJoined(FRESH, OPENING + FIRST_PUSH, ANNOUNCED);
  }

  lemma FirstPushIsReached()
    ensures After(FRESH, OPENING + FIRST_PUSH) == FirstPush()
  {
    OpeningIsARun();
    FirstPushTrace();
    hide Trace, ToFirstPush, After;
    TraceIsARun(ToFirstPush(), FIRST_PUSH);
    AfterJoined(FRESH, OPENING, FIRST_PUSH);
    TraceEnds();
  }

  /** The second push failed too, and its changelog is committed. */
  const SECOND_REBUILD := [RebuildOf(2, "p2", "j2"), LogCommitted("c", "i2", "c3")]

  function SecondCommitted(): State {
    Stage(ChangelogCommitted, Log("i2", 2, Some("c3")), Push("p2", "j2", "t"), Rebuilt("p2", "j2", true, Some("c3")))
  }

  function ThirdPush(): State {
    Stage(ParentPushPending, Log("i2", 2, Some("c3")), Push("p1", "j1", "s"), Rebuilt("p2", "j2", true, Some("c3")))
  }

  lemma SecondCommitStep()
    ensures Advance(SecondRebuild(), SECOND_REBUILD[1]) == Ok(SecondCommitted())
  {
  }

  lemma FirstPushReturns()
    ensures FIRST_PUSH[3] == PushPending("c", "p1", "s", "j1", None)
    ensures Advance(SecondCommitted(), FIRST_PUSH[3]) == Ok(ThirdPush())
  {
  }

  const OLD_RECEIPT := PushComplete(
    "c", "m", "p1", "c3", PushReceipt("r", "b", "c", 1, "p1", "j1", "q", "s", "c3", "h2", "a2"))

  lemma ThirdPushCompletes()
    ensures Advance(ThirdPush(), OLD_RECEIPT).Ok?
    ensures var t := Advance(ThirdPush(), OLD_RECEIPT).value;
            && t.phase.Complete? && t.evidence.push.intentId == Some("p1") && t.evidence.push.journalId == Some("j1")
  {
  }

  lemma SecondCommitIsReached()
    ensures After(FRESH, OPENING + FIRST_PUSH + FIRST_REBUILD + SECOND_REBUILD) == SecondCommitted()
  {
    SecondPushIsReached();
    SecondRebuildStep();
    SecondCommitStep();
    hide Advance, After, Stage, SecondPush, SecondRebuild, SecondCommitted;
    var states := [SecondPush(), SecondRebuild(), SecondCommitted()];
    assert Trace(states, SECOND_REBUILD);
    TraceIsARun(states, SECOND_REBUILD);
    AfterJoined(FRESH, OPENING + FIRST_PUSH + FIRST_REBUILD, SECOND_REBUILD);
  }

  /**
   A run from a fresh child: two pushes are declared failed, and after the second rebuild a late copy of the
   first of them is accepted. Its receipt completes the child under the identity the first rebuild declared failed.
   */
  lemma FirstFailedPushCompletes()
    ensures FIRST_REBUILD[0] == RebuildOf(1, "p1", "j1") && FIRST_PUSH[3] == PushPending("c", "p1", "s", "j1", None)
    ensures var run := OPENING + FIRST_PUSH + FIRST_REBUILD + SECOND_REBUILD;
            var end := After(FRESH, run + [FIRST_PUSH[3], OLD_RECEIPT]);
            && end.phase.Complete?
            && end.evidence.push.intentId == Some("p1") && end.evidence.push.journalId == Some("j1")
  {
    SecondCommitIsReached();
    FirstPushReturns();
    ThirdPushCompletes();
    hide Advance, After, Stage, ThirdPush, SecondCommitted;
    var run := OPENING + FIRST_PUSH + FIRST_REBUILD + SECOND_REBUILD;
    AfterJoined(FRESH, run, [FIRST_PUSH[3], OLD_RECEIPT]);
    TwoEvents(SecondCommitted(), FIRST_PUSH[3], OLD_RECEIPT);
  }
}
