/** Which lane events are accepted in a run, where each one leads, and when an owned lane becomes free again. */
module LaneAcceptance {
  import opened Prelude
  import opened Lanes
  import PostMerge

  /** The phases in which an event is taken up. */
  function From(e: LaneEvent): set<LanePhase> {
    match e
    case Reserve(_, _, _) => {Idle, Recovering}
    case StartIntegration(_, _) => {Reserved, Integrating}
    case StartBookkeeping(_, _, _, _, _, _) => {Integrating, Bookkeeping}
    case Release(_, _) => {Bookkeeping}
    case NoBookkeeping(_) => {Integrating, Bookkeeping}
    case RequestRecovery(_) => {Reserved, Integrating, Bookkeeping, Parked}
    case ResolveRecovery(_, _) => {Recovering}
    case Park(_, _) => {Reserved, Integrating, Bookkeeping, Recovering}
    case Abandon(_, _) => {Reserved, Integrating, Bookkeeping, Recovering, Parked}
  }

  /** The phase an accepted event leads to, wherever it was taken up. */
  function To(e: LaneEvent): LanePhase {
    match e
    case Reserve(_, _, _) => Reserved
    case StartIntegration(_, _) => Integrating
    case StartBookkeeping(_, _, _, _, _, _) => Bookkeeping
    case Release(_, _) => Idle
    case NoBookkeeping(_) => Idle
    case RequestRecovery(_) => Recovering
    case ResolveRecovery(_, _) => Integrating
    case Park(_, _) => Parked
    case Abandon(_, _) => Idle
  }

  /** The texts an event must not leave empty. */
  function Texts(e: LaneEvent): set<string> {
    match e
    case Reserve(child, _, base) => {child, base}
    case StartIntegration(_, head) => {head}
    case StartBookkeeping(_, journal, intent, push, commit, base) => {journal, intent, push, commit, base}
    case Release(_, _) => {}
    case NoBookkeeping(_) => {}
    case RequestRecovery(diagnostic) => {diagnostic}
    case ResolveRecovery(_, head) => {head}
    case Park(cause, diagnostic) => {cause, diagnostic}
    case Abandon(cause, diagnostic) => {cause, diagnostic}
  }

  /** Recovery, parking and abandonment concern whoever owns the lane; a reservation names its next owner. */
  function Owner(e: LaneEvent): Option<string> {
    match e
    case StartIntegration(child, _) => Some(child)
    case StartBookkeeping(child, _, _, _, _, _) => Some(child)
    case Release(child, _) => Some(child)
    case NoBookkeeping(child) => Some(child)
    case ResolveRecovery(child, _) => Some(child)
    case _ => None
  }

  /** The head is bound by the first integration, the journal and the base by the first bookkeeping. */
  predicate Agrees(lane: Lane, e: LaneEvent) {
    && (e.Reserve? ==> e.epoch > lane.lastEpoch && (lane.phase.Idle? || lane.child == Some(e.child)))
    && (e.StartIntegration? && !lane.phase.Reserved? ==> lane.headSha == Some(e.head))
    && (e.ResolveRecovery? ==> lane.headSha == Some(e.head))
    && (e.StartBookkeeping? && lane.phase.Bookkeeping? ==>
          lane.mergeJournal == Some(e.journal) && lane.expectedBase == Some(e.baseSha))
    && (e.Release? ==>
          && (e.receipt.repository, e.receipt.parentBranch) == (lane.repository, lane.parentBranch)
          && (Some(e.receipt.childId), Some(e.receipt.laneEpoch)) == (lane.child, lane.epoch)
          && (Some(e.receipt.pushIntentId), Some(e.receipt.pushJournalId)) == (lane.pushIntent, lane.pushJournal)
          && (Some(e.receipt.expectedBaseSha), Some(e.receipt.pushedCommit))
             == (lane.expectedBase, lane.changelogCommit))
  }

  /** In every run an event is accepted exactly where the phase, the texts, the owner and the bindings allow it. */
  lemma AcceptedIff(lane: Lane, events: seq<LaneEvent>, n: nat)
    requires Owned(lane) && n < |events|
    ensures var (at, e) := (At(lane, events, n), events[n]);
            Accepted(lane, events, n) <==>
              && at.phase in From(e) && "" !in Texts(e)
              && (Owner(e).Some? ==> Owner(e) == at.child) && Agrees(at, e)
  {
    RunsStayOwned(lane, events, n);
  }

  /** An accepted event always leads to its own phase, and a refused one changes nothing. */
  lemma PhaseAfter(lane: Lane, events: seq<LaneEvent>, n: nat)
    requires n < |events|
    ensures if Accepted(lane, events, n) then At(lane, events, n + 1).phase == To(events[n])
            else At(lane, events, n + 1) == At(lane, events, n)
  {
  }

  lemma {:induction false} PlaceStays(lane: Lane, events: seq<LaneEvent>, n: nat)
    requires n <= |events|
    ensures (At(lane, events, n).repository, At(lane, events, n).parentBranch) == (lane.repository, lane.parentBranch)
  {
    if n > 0 { PlaceStays(lane, events, n - 1); }
  }

  /**
   A receipt frees a bookkeeping lane exactly when it proves, for the child and the epoch of the newest
   reservation, the push the newest bookkeeping event announced, on this repository and branch.
   */
  lemma ReleaseAcceptedIff(lane: Lane, events: seq<LaneEvent>, n: nat) returns (i: nat, k: nat)
    requires Owned(lane) && lane.phase.Idle? && n < |events|
    requires At(lane, events, n).phase.Bookkeeping? && events[n].Release?
    ensures i < n && Accepted(lane, events, i) && events[i].Reserve?
    ensures forall m :: i < m < n && Accepted(lane, events, m) ==> !events[m].Reserve?
    ensures k < n && Accepted(lane, events, k) && events[k].StartBookkeeping?
    ensures forall m :: k < m < n && Accepted(lane, events, m) ==> !events[m].StartBookkeeping?
    ensures var r := events[n].receipt;
            Accepted(lane, events, n) <==>
              && events[n].child == events[i].child == r.childId && r.laneEpoch == events[i].epoch
              && r.repository == lane.repository && r.parentBranch == lane.parentBranch
              && r.pushIntentId == events[k].intent && r.pushJournalId == events[k].pushJournalId
              && r.expectedBaseSha == events[k].baseSha && r.pushedCommit == events[k].commit
  {
    i := NewestReservation(lane, events, n);
    k := BookkeepingIsTheNewest(lane, events, n);
    PlaceStays(lane, events, n);
    RunsStayOwned(lane, events, n);
    AcceptedIff(lane, events, n);
    var at := At(lane, events, n);
    hide Transition, Accepted;
    assert Identity(at)[1] == at.pushIntent == Some(events[k].intent);
    assert Identity(at)[2] == at.pushJournal == Some(events[k].pushJournalId);
    assert Identity(at)[3] == at.changelogCommit == Some(events[k].commit);
    assert Identity(at)[4] == at.expectedBase == Some(events[k].baseSha);
  }

  /**
   An owned lane becomes free exactly by an abandonment with its texts, by an accepted receipt, or when the child
   of the newest reservation needs no bookkeeping while it integrates or keeps its books.
   */
  lemma FreedIff(lane: Lane, events: seq<LaneEvent>, n: nat) returns (i: nat)
    requires Owned(lane) && lane.phase.Idle? && n < |events| && !At(lane, events, n).phase.Idle?
    ensures i < n && Accepted(lane, events, i) && events[i].Reserve?
    ensures forall m :: i < m < n && Accepted(lane, events, m) ==> !events[m].Reserve?
    ensures var (at, e) := (At(lane, events, n), events[n]);
            At(lane, events, n + 1).phase.Idle? <==>
              || (e.Abandon? && e.cause != "" && e.diagnostic != "")
              || (e.Release? && Accepted(lane, events, n))
              || (e.NoBookkeeping? && (at.phase.Integrating? || at.phase.Bookkeeping?) && e.child == events[i].child)
  {
    i := NewestReservation(lane, events, n);
    AcceptedIff(lane, events, n);
    PhaseAfter(lane, events, n);
    hide Transition, Accepted;
  }

  /** A lane that was just freed takes any child, the last one included, under any newer epoch and no other. */
  lemma FreedLaneReservesIff(lane: Lane, events: seq<LaneEvent>, n: nat) returns (i: nat)
    requires Owned(lane) && lane.phase.Idle? && n + 1 < |events|
    requires !At(lane, events, n).phase.Idle? && At(lane, events, n + 1).phase.Idle? && events[n + 1].Reserve?
    ensures i < n && Accepted(lane, events, i) && events[i].Reserve?
    ensures forall m :: i < m <= n && Accepted(lane, events, m) ==> !events[m].Reserve?
    ensures var e := events[n + 1];
            Accepted(lane, events, n + 1) <==> e.child != "" && e.baseSha != "" && e.epoch > events[i].epoch
  {
    i := NewestReservation(lane, events, n);
    RunsStayOwned(lane, events, n);
    StepContract(At(lane, events, n), events[n]);
    AcceptedIff(lane, events, n + 1);
    PhaseAfter(lane, events, n);
    hide Transition, Accepted;
  }

  /** What an accepted event binds; everything else it leaves, or clears with the owner. */
  lemma EventWrites(lane: Lane, events: seq<LaneEvent>, n: nat)
    requires Owned(lane) && Accepted(lane, events, n)
    ensures var (at, e, next) := (At(lane, events, n), events[n], At(lane, events, n + 1));
            && next.headSha == (if e.StartIntegration? then Some(e.head)
                                else if e.Reserve? || To(e).Idle? then None else at.headSha)
            && Identity(next)
               == (if e.StartBookkeeping? then
                     [Some(e.journal), Some(e.intent), Some(e.pushJournalId), Some(e.commit), Some(e.baseSha)]
                   else if e.Reserve? then [None, None, None, None, Some(e.baseSha)]
                   else if To(e).Idle? then [None, None, None, None, None] else Identity(at))
  {
    RunsStayOwned(lane, events, n);
  }

  /** Since the newest reservation, the lane's head is that of every accepted integration, or none was accepted. */
  lemma {:induction false} HeadIsTheIntegrated(lane: Lane, events: seq<LaneEvent>, i: nat, n: nat)
    requires Owned(lane) && i < n <= |events| && Accepted(lane, events, i) && events[i].Reserve?
    requires forall m :: i < m < n && Accepted(lane, events, m) ==> !events[m].Reserve?
    requires forall m :: i < m <= n ==> !At(lane, events, m).phase.Idle?
    ensures forall m :: i < m < n && Accepted(lane, events, m) && events[m].StartIntegration? ==>
                          At(lane, events, n).headSha == Some(events[m].head)
    ensures At(lane, events, n).headSha.Some? ==>
              exists m :: i < m < n && Accepted(lane, events, m) && events[m].StartIntegration?
    ensures At(lane, events, n).phase.Reserved? ==> At(lane, events, n).headSha.None?
    decreases n
  {
    hide At, Accepted, Identity, Owned;
    PhaseAfter(lane, events, n - 1);
    AcceptedIff(lane, events, n - 1);
    var e := events[n - 1];
    if Accepted(lane, events, n - 1) { EventWrites(lane, events, n - 1); }
    if i < n - 1 { HeadIsTheIntegrated(lane, events, i, n - 1); }
  }

  /** A recovered lane goes on integrating exactly for its owner and the head integrated under its reservation. */
  lemma RecoveryResolvesIff(lane: Lane, events: seq<LaneEvent>, n: nat) returns (i: nat)
    requires Owned(lane) && lane.phase.Idle? && n < |events|
    requires At(lane, events, n).phase.Recovering? && events[n].ResolveRecovery?
    ensures i < n && Accepted(lane, events, i) && events[i].Reserve?
    ensures forall m :: i < m < n && Accepted(lane, events, m) ==> !events[m].Reserve?
    ensures Accepted(lane, events, n) <==>
              && events[n].child == events[i].child && events[n].head != ""
              && exists m :: i < m < n && Accepted(lane, events, m)
                             && events[m].StartIntegration? && events[m].head == events[n].head
  {
    i := NewestReservation(lane, events, n);
    HeadIsTheIntegrated(lane, events, i, n);
    AcceptedIff(lane, events, n);
    hide Transition, Accepted, Owned;
  }
}
