/** Late copies: exactly when an accepted event, delivered again at any later point of any run, changes something. */
module PostMergeReplay {
  import opened Prelude
  import opened PostMerge
  import opened PostMergeRuns
  import opened PostMergeHistory

  /** The phase an accepted event of this kind leaves a child in. */
  function Home(e: Event): nat {
    match e
    case MergeAdopted(_, _, _, _, _, _, _) => 1
    case BranchSynced(_, _, _) => 2
    case UnlinkedJudged(_, _, _, _, _, _, _, _) => 2
    case ClosePending(_, _, _) => 3
    case CloseFailed(_, _, _, _, _, _, _) => 3
    case CloseRetryAuthorized(_, _, _, _, _, _) => 3
    case CloseConfirmed(_, _, _, _) => 4
    case CloseAlreadyClosed(_, _, _, _) => 4
    case LogPending(_, _, _) => 5
    case RebuildRequested(_, _, _, _, _, _, _, _, _) => 5
    case LogCommitted(_, _, _) => 6
    case PushPending(_, _, _, _, _) => 7
    case PushComplete(_, _, _, _, _) => 8
    case NotApplicableDone(_, _, _, _, _) => 8
  }

  /** The three kinds a rebuild takes a child back before. */
  predicate Repeats(e: Event) {
    e.LogPending? || e.LogCommitted? || e.PushPending?
  }

  /** What an accepted event leaves for good, whatever happens after it, rebuilds included. */
  predicate Spent(t: State, e: Event) {
    if e.RebuildRequested? then Rank(t.phase) >= 5 && Generation(t) >= e.generation
    else if Repeats(e) then Rank(t.phase) >= 5 && Bound(t, e) && Outlived(t, e)
    else Rank(t.phase) > Home(e) || (Rank(t.phase) == Home(e) && OnRecord(t, e))
  }

  predicate OnRecord(t: State, e: Event) {
    match e
    case CloseFailed(_, _, _, generation, _, _, _) =>
      Counter(t.evidence.close.failureGeneration, 0) > generation || Advance(t, e) == Ok(t)
    case CloseRetryAuthorized(_, _, _, _, nextAttempt, _) => Counter(t.evidence.close.attempt, 1) >= nextAttempt
    case _ => Advance(t, e) == Ok(t)
  }

  /** The event names the child and lacks no text. */
  predicate Bound(t: State, e: Event)
    requires Repeats(e)
  {
    && t.evidence.merge.childId == Some(e.child) && !Empty(e.child)
    && (match e
        case LogPending(_, intent, generation) => !Empty(intent) && generation >= 0
        case LogCommitted(_, intent, commit) => !Empty(intent) && !Empty(commit)
        case PushPending(_, intent, base, journal, _) => !Empty(intent) && !Empty(base) && !Empty(journal)
        case _ => true)
  }

  /** Before its own phase the child can only be because of a rebuild. */
  predicate Outlived(t: State, e: Event)
    requires Repeats(e)
  {
    var v := t.evidence;
    match e
    case LogPending(_, intent, generation) =>
      Rank(t.phase) > 5 || Has(v.rebuild.reason)
      || (v.log.intentId == Some(intent) && v.log.generation == Some(generation))
    case LogCommitted(_, intent, _) =>
      && (Rank(t.phase) > 5 || Has(v.rebuild.reason))
      && (v.rebuild.applied || v.log.intentId == Some(intent))
    case PushPending(_, _, _, _, _) => Rank(t.phase) > 6 || Has(v.rebuild.reason)
    case _ => true
  }

  // ---- an accepted event is spent, and stays so

  lemma AcceptedIsHome(s: State, e: Event)
    requires Advance(s, e).Ok?
    ensures Rank(Advance(s, e).value.phase) == Home(e)
    ensures e.CloseRetryAuthorized? ==> Counter(Advance(s, e).value.evidence.close.attempt, 1) == e.nextAttempt
    ensures e.RebuildRequested? ==> Generation(Advance(s, e).value) == e.generation
  {
  }

  lemma RepeatingIsSpent(s: State, e: Event)
    requires Reachable(s) && Repeats(e) && Advance(s, e).Ok?
    ensures Spent(Advance(s, e).value, e)
  {
  }

  lemma AcceptedIsSpent(s: State, e: Event)
    requires Reachable(s) && Advance(s, e).Ok?
    ensures Spent(Advance(s, e).value, e)
  {
    if Repeats(e) {
      RepeatingIsSpent(s, e);
    } else {
      AcceptedIsHome(s, e);
      RedeliveryIsSafe(s, e);
    }
    hide Advance, Reachable;
  }

  predicate Settles(t: State, f: Event, u: State) {
    || Rank(u.phase) > Rank(t.phase) || u == t
    || (Rank(u.phase) == Rank(t.phase) && (f.UnlinkedJudged? || f.CloseFailed? || f.CloseRetryAuthorized?))
  }

  lemma SettlesEarly(t: State, f: Event)
    requires Reachable(t) && Advance(t, f).Ok? && Rank(t.phase) <= 1
    ensures Settles(t, f, Advance(t, f).value)
  {
  }

  lemma SettlesMidway(t: State, f: Event)
    requires Reachable(t) && Advance(t, f).Ok? && 1 < Rank(t.phase) <= 4
    ensures Settles(t, f, Advance(t, f).value)
  {
  }

  /** From the changelog on a child never goes back before it. */
  lemma StaysLate(t: State, f: Event)
    requires Reachable(t) && Advance(t, f).Ok? && Rank(t.phase) >= 5
    ensures Rank(Advance(t, f).value.phase) >= 5
  {
    StepKeeps(t, f);
    if f.RebuildRequested? { AcceptedIsHome(t, f); }
    hide Advance, Reachable;
  }

  lemma JudgmentKeepsSpent(t: State, f: Event, e: Event)
    requires Reachable(t) && Rank(t.phase) <= 4 && Spent(t, e) && f.UnlinkedJudged? && Advance(t, f).Ok?
    ensures Spent(Advance(t, f).value, e)
  {
  }

  lemma FailureKeepsSpent(t: State, f: Event, e: Event)
    requires Reachable(t) && Rank(t.phase) <= 4 && Spent(t, e) && f.CloseFailed? && Advance(t, f).Ok?
    ensures Spent(Advance(t, f).value, e)
  {
  }

  lemma RetryKeepsSpent(t: State, f: Event, e: Event)
    requires Reachable(t) && Rank(t.phase) <= 4 && Spent(t, e) && f.CloseRetryAuthorized? && Advance(t, f).Ok?
    ensures Spent(Advance(t, f).value, e)
  {
  }

  lemma EarlyKeepsSpent(t: State, f: Event, e: Event)
    requires Reachable(t) && Rank(t.phase) <= 4 && Spent(t, e) && Advance(t, f).Ok?
    ensures Spent(Advance(t, f).value, e)
  {
    if Rank(t.phase) <= 1 { SettlesEarly(t, f); } else { SettlesMidway(t, f); }
    if f.UnlinkedJudged? { JudgmentKeepsSpent(t, f, e); }
    if f.CloseFailed? { FailureKeepsSpent(t, f, e); }
    if f.CloseRetryAuthorized? { RetryKeepsSpent(t, f, e); }
    hide Advance, Reachable, OnRecord;
  }

  lemma AnnouncementKeepsOutlived(t: State, f: Event, e: Event)
    requires Reachable(t) && Rank(t.phase) >= 5 && Repeats(e) && Outlived(t, e)
    requires f.LogPending? && Advance(t, f).Ok?
    ensures Outlived(Advance(t, f).value, e)
  {
  }

  lemma CommitKeepsOutlived(t: State, f: Event, e: Event)
    requires Reachable(t) && Rank(t.phase) >= 5 && Repeats(e) && Outlived(t, e)
    requires f.LogCommitted? && Advance(t, f).Ok?
    ensures Outlived(Advance(t, f).value, e)
  {
  }

  /** The other events leave the changelog intent alone, and only a rebuild goes back. */
  lemma OthersKeepLog(t: State, f: Event)
    requires Reachable(t) && Rank(t.phase) >= 5 && !f.LogPending? && !f.LogCommitted? && Advance(t, f).Ok?
    ensures var u := Advance(t, f).value;
            && u.evidence.log.intentId == t.evidence.log.intentId
            && u.evidence.rebuild.applied == t.evidence.rebuild.applied
            && (Has(u.evidence.rebuild.reason) || (u.evidence.rebuild.reason == t.evidence.rebuild.reason
                && Rank(u.phase) >= Rank(t.phase)
                && (u.evidence.log.generation == t.evidence.log.generation)))
            && (Has(t.evidence.rebuild.reason) ==> Has(u.evidence.rebuild.reason))
  {
  }

  lemma LateKeepsOutlived(t: State, f: Event, e: Event)
    requires Reachable(t) && Rank(t.phase) >= 5 && Repeats(e) && Spent(t, e) && Advance(t, f).Ok?
    ensures Outlived(Advance(t, f).value, e)
  {
    if f.LogPending? {
      AnnouncementKeepsOutlived(t, f, e);
    } else if f.LogCommitted? {
      CommitKeepsOutlived(t, f, e);
    } else {
      OthersKeepLog(t, f);
    }
    hide Advance, Reachable;
  }

  lemma LateKeepsSpent(t: State, f: Event, e: Event)
    requires Reachable(t) && 5 <= Rank(t.phase) && !t.phase.Complete? && Spent(t, e) && Advance(t, f).Ok?
    ensures Spent(Advance(t, f).value, e)
  {
    StepFacts(t, f);
    hide Advance, Reachable, Outlived, OnRecord;
    if Repeats(e) { LateKeepsOutlived(t, f, e); }
  }

  /** From the changelog on: the phase stays there, the generation never falls, and the child is the same. */
  lemma StepFacts(t: State, f: Event)
    requires Reachable(t) && 5 <= Rank(t.phase) && Advance(t, f).Ok?
    ensures var u := Advance(t, f).value;
            && Rank(u.phase) >= 5 && Generation(u) >= Generation(t)
            && (t.evidence.merge.childId.Some? ==> u.evidence.merge.childId == t.evidence.merge.childId)
  {
    StaysLate(t, f);
    StepKeeps(t, f);
    hide Advance, Reachable, NothingDropped;
  }

  /** Whatever is accepted afterwards, a spent event stays spent. */
  lemma StepKeepsSpent(t: State, f: Event, e: Event)
    requires Reachable(t) && Spent(t, e) && Advance(t, f).Ok?
    ensures Spent(Advance(t, f).value, e)
  {
    if t.phase.Complete? {
      CompleteIsFinal(t, f);
    } else if Rank(t.phase) <= 4 {
      EarlyKeepsSpent(t, f, e);
    } else {
      LateKeepsSpent(t, f, e);
    }
    hide Advance, Reachable, Spent;
  }

  lemma {:induction false} SpentStays(t: State, events: seq<Event>, e: Event)
    requires Reachable(t) && Spent(t, e)
    ensures Reachable(After(t, events)) && Spent(After(t, events), e)
    decreases |events|
  {
    hide Advance, Reachable, Spent;
    if events != [] {
      StepKeeps(t, events[0]);
      if Advance(t, events[0]).Ok? { StepKeepsSpent(t, events[0], e); }
      SpentStays(StepOrStay(t, events[0]), events[1..], e);
    }
  }

  // ---- what a late copy does

  /**
   The child is back where the copy fits again. Only a rebuild brings it there: a changelog intent that another
   one replaced in the same generation, a commit under the intent on record once a rebuild was applied, or a
   push that shares neither identity with the push declared failed last.
   */
  predicate Reopened(u: State, e: Event) {
    var v := u.evidence;
    match e
    case LogPending(_, intent, generation) =>
      && u.phase.ChangelogPending? && Has(v.rebuild.reason)
      && v.log.generation == Some(generation) && v.log.intentId != Some(intent)
    case LogCommitted(_, intent, _) =>
      u.phase.ChangelogPending? && v.rebuild.applied && v.log.intentId == Some(intent)
    case PushPending(_, intent, _, journal, epoch) =>
      && u.phase.ChangelogCommitted? && (epoch.Some? ==> epoch.value > 0)
      && v.rebuild.failedIntent != Some(intent) && v.rebuild.failedJournal != Some(journal)
    case _ => false
  }

  lemma PendingChangesIff(u: State, e: Event)
    requires Reachable(u) && e.LogPending? && Spent(u, e)
    ensures StepOrStay(u, e) != u <==> Reopened(u, e)
  {
  }

  lemma CommitChangesIff(u: State, e: Event)
    requires Reachable(u) && e.LogCommitted? && Spent(u, e)
    ensures StepOrStay(u, e) != u <==> Reopened(u, e)
  {
  }

  lemma PushChangesIff(u: State, e: Event)
    requires Reachable(u) && e.PushPending? && Spent(u, e)
    ensures StepOrStay(u, e) != u <==> Reopened(u, e)
  {
  }

  lemma OthersAreIdle(u: State, e: Event)
    requires Reachable(u) && !Repeats(e) && Spent(u, e)
    ensures StepOrStay(u, e) == u
  {
  }

  lemma SpentChangesIff(u: State, e: Event)
    requires Reachable(u) && Spent(u, e)
    ensures StepOrStay(u, e) != u <==> Reopened(u, e)
  {
    hide Advance, Reachable, Spent, StepOrStay;
    match e {
      case LogPending(_, _, _) => PendingChangesIff(u, e);
      case LogCommitted(_, _, _) => CommitChangesIff(u, e);
      case PushPending(_, _, _, _, _) => PushChangesIff(u, e);
      case _ => OthersAreIdle(u, e);
    }
  }

  /**
   In any run, rebuilds included, a copy of an accepted event delivered at any later point changes something if
   and only if the child is back where it fits. Copies of eleven kinds never do.
   */
  lemma LateCopyChangesIff(s: State, before: seq<Event>, e: Event, between: seq<Event>)
    requires Reachable(s) && Advance(After(s, before), e).Ok?
    ensures var u := After(s, before + [e] + between);
            After(s, before + [e] + between + [e]) != u <==> Reopened(u, e)
  {
    hide Advance, Reachable, Spent, Reopened, StepOrStay;
    var at := After(s, before);
    RunsAreReachable(s, before);
    StepKeeps(at, e);
    AcceptedIsSpent(at, e);
    AcceptedIsTaken(at, e);
    var t := StepOrStay(at, e);
    SpentStays(t, between, e);
    AfterJoined(s, before, [e]);
    AfterJoined(s, before + [e], between);
    AfterJoined(s, before + [e] + between, [e]);
    OneEvent(at, e);
    OneEvent(After(t, between), e);
    SpentChangesIff(After(t, between), e);
  }

  lemma AcceptedIsTaken(s: State, e: Event)
    requires Advance(s, e).Ok?
    ensures StepOrStay(s, e) == Advance(s, e).value
  {
    hide Advance;
  }

  /** Without a rebuild on record nothing is reopened. */
  lemma SpentIsIdleWithoutRebuild(u: State, e: Event)
    requires Spent(u, e) && !Has(u.evidence.rebuild.reason)
    ensures !Reopened(u, e)
  {
  }

  /** So while the run has seen no rebuild, late copies of all kinds change nothing. */
  lemma LateCopyIsIdle(s: State, before: seq<Event>, e: Event, between: seq<Event>)
    requires Reachable(s) && Advance(After(s, before), e).Ok?
    requires !Has(After(s, before + [e] + between).evidence.rebuild.reason)
    ensures After(s, before + [e] + between + [e]) == After(s, before + [e] + between)
  {
    hide Advance, Reachable, Spent, Reopened, StepOrStay;
    var at := After(s, before);
    RunsAreReachable(s, before);
    StepKeeps(at, e);
    AcceptedIsSpent(at, e);
    AcceptedIsTaken(at, e);
    SpentStays(StepOrStay(at, e), between, e);
    AfterJoined(s, before, [e]);
    AfterJoined(s, before + [e], between);
    OneEvent(at, e);
    SpentIsIdleWithoutRebuild(After(s, before + [e] + between), e);
    LateCopyChangesIff(s, before, e, between);
  }
}
