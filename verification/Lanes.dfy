/** Serialized ownership of one repository and parent branch, and what every run of it keeps. */
module Lanes {
  import opened Prelude
  import PostMerge

  datatype LanePhase = Idle | Reserved | Integrating | Bookkeeping | Recovering | Parked

  datatype Lane = Lane(
    repository: string, parentBranch: string, phase: LanePhase,
    child: Option<string>, epoch: Option<int>, expectedBase: Option<string>, headSha: Option<string>,
    mergeJournal: Option<string>, pushIntent: Option<string>, pushJournal: Option<string>,
    changelogCommit: Option<string>,
    lastReceipt: Option<string>, lastRemoteHead: Option<string>, lastAncestryProof: Option<string>,
    lastEpoch: nat)

  datatype LaneEvent =
    | Reserve(child: string, epoch: int, baseSha: string)
    | StartIntegration(child: string, head: string)
    | StartBookkeeping(child: string, journal: string, intent: string, pushJournalId: string,
                       commit: string, baseSha: string)
    | Release(child: string, receipt: PostMerge.Receipt)
    | NoBookkeeping(child: string)
    | RequestRecovery(diagnostic: string)
    | ResolveRecovery(child: string, head: string)
    | Park(cause: string, diagnostic: string)
    | Abandon(cause: string, diagnostic: string)

  datatype LaneRefusal = NoTransition | Mismatch

  type LaneOutcome = Result<Lane, LaneRefusal>

  function FreshLane(repository: string, parentBranch: string): Lane {
    Lane(repository, parentBranch, Idle, None, None, None, None, None, None, None, None, None, None, None, 0)
  }

  function Guarded(ok: bool, lane: Lane): LaneOutcome {
    if ok then Ok(lane) else Err(Mismatch)
  }

  /** The lane without an owner; what the last push proved is retained. */
  function Vacated(lane: Lane): Lane {
    lane.(phase := Idle, child := None, epoch := None, expectedBase := None, headSha := None,
          mergeJournal := None, pushIntent := None, pushJournal := None, changelogCommit := None)
  }

  predicate Working(p: LanePhase) {
    p.Reserved? || p.Integrating? || p.Bookkeeping?
  }

  function DoReserve(lane: Lane, e: LaneEvent): LaneOutcome
    requires e.Reserve?
  {
    if Empty(e.child) || e.epoch <= 0 || Empty(e.baseSha) then Err(Mismatch)
    else if lane.phase.Recovering? && lane.child.Some? && lane.child != Some(e.child) then Err(Mismatch)
    else if e.epoch <= lane.lastEpoch then Err(Mismatch)
    else Ok(Vacated(lane).(phase := Reserved, child := Some(e.child), epoch := Some(e.epoch),
                           expectedBase := Some(e.baseSha), lastEpoch := e.epoch))
  }

  function DoStartBookkeeping(lane: Lane, e: LaneEvent): LaneOutcome
    requires e.StartBookkeeping?
  {
    Guarded(
      && lane.child == Some(e.child)
      && !Empty(e.journal) && !Empty(e.intent) && !Empty(e.pushJournalId) && !Empty(e.commit) && !Empty(e.baseSha)
      && (lane.phase.Bookkeeping? ==> lane.mergeJournal == Some(e.journal) && lane.expectedBase == Some(e.baseSha)),
      lane.(phase := Bookkeeping, mergeJournal := Some(e.journal), pushIntent := Some(e.intent),
            pushJournal := Some(e.pushJournalId), changelogCommit := Some(e.commit), expectedBase := Some(e.baseSha)))
  }

  function DoRelease(lane: Lane, e: LaneEvent): LaneOutcome
    requires e.Release?
  {
    var r := e.receipt;
    Guarded(
      && lane.child == Some(e.child)
      && r.repository == lane.repository && r.parentBranch == lane.parentBranch
      && Some(r.childId) == lane.child && Some(r.laneEpoch) == lane.epoch
      && Some(r.pushIntentId) == lane.pushIntent && Some(r.pushJournalId) == lane.pushJournal
      && Some(r.expectedBaseSha) == lane.expectedBase && Some(r.pushedCommit) == lane.changelogCommit,
      Vacated(lane).(lastReceipt := Some(r.pushReceiptId), lastRemoteHead := Some(r.observedRemoteHead),
                     lastAncestryProof := Some(r.ancestryProof)))
  }

  /** Apply one serialized lane event. */
  function Transition(lane: Lane, e: LaneEvent): LaneOutcome {
    var p := lane.phase;
    match e
    case Abandon(cause, diagnostic) =>
      if p.Idle? then Err(NoTransition) else Guarded(!Empty(cause) && !Empty(diagnostic), Vacated(lane))
    case RequestRecovery(diagnostic) =>
      if !Working(p) && !p.Parked? then Err(NoTransition)
      else Guarded(!Empty(diagnostic), lane.(phase := Recovering))
    case ResolveRecovery(child, head) =>
      if !p.Recovering? then Err(NoTransition)
      else Guarded(lane.child == Some(child) && !Empty(head) && lane.headSha == Some(head),
                   lane.(phase := Integrating))
    case Park(cause, diagnostic) =>
      if !Working(p) && !p.Recovering? then Err(NoTransition)
      else Guarded(!Empty(cause) && !Empty(diagnostic), lane.(phase := Parked))
    case Reserve(_, _, _) =>
      if !p.Idle? && !p.Recovering? then Err(NoTransition) else DoReserve(lane, e)
    case StartIntegration(child, head) =>
      if p.Reserved? then
        Guarded(lane.child == Some(child) && !Empty(head), lane.(phase := Integrating, headSha := Some(head)))
      else if p.Integrating? then
        Guarded(lane.child == Some(child) && !Empty(head) && lane.headSha == Some(head), lane)
      else Err(NoTransition)
    case StartBookkeeping(_, _, _, _, _, _) =>
      if !p.Integrating? && !p.Bookkeeping? then Err(NoTransition) else DoStartBookkeeping(lane, e)
    case Release(_, _) =>
      if !p.Bookkeeping? then Err(NoTransition) else DoRelease(lane, e)
    case NoBookkeeping(child) =>
      if !p.Integrating? && !p.Bookkeeping? then Err(NoTransition)
      else Guarded(lane.child == Some(child), Vacated(lane))
  }

  // ---- runs

  function StepOrStay(lane: Lane, e: LaneEvent): Lane {
    match Transition(lane, e)
    case Ok(next) => next
    case Err(_) => lane
  }

  /** The lane after the first n events of a run. */
  function At(lane: Lane, events: seq<LaneEvent>, n: nat): Lane
    requires n <= |events|
  {
    if n == 0 then lane else StepOrStay(At(lane, events, n - 1), events[n - 1])
  }

  /** The n-th event of the run is accepted where it arrives. */
  predicate Accepted(lane: Lane, events: seq<LaneEvent>, n: nat) {
    n < |events| && Transition(At(lane, events, n), events[n]).Ok?
  }

  /** An idle lane has no owner; any other lane is owned under the newest reservation's epoch. */
  predicate Owned(lane: Lane) {
    if lane.phase.Idle? then lane == Vacated(lane)
    else lane.child.Some? && !Empty(lane.child.value) && lane.epoch == Some(lane.lastEpoch) && lane.lastEpoch > 0
  }

  /** What one event does to the owner and to the epoch. */
  lemma StepContract(lane: Lane, e: LaneEvent)
    requires Owned(lane)
    ensures var next := StepOrStay(lane, e);
            && Owned(next) && next.lastEpoch >= lane.lastEpoch
            && (next.repository, next.parentBranch) == (lane.repository, lane.parentBranch)
            && (lane.phase.Idle? && !next.phase.Idle? ==> next.lastEpoch > lane.lastEpoch)
            && (!lane.phase.Idle? && !next.phase.Idle? ==> next.child == lane.child)
            && (next.lastEpoch != lane.lastEpoch <==> e.Reserve? && Transition(lane, e).Ok?)
    ensures e.Reserve? && Transition(lane, e).Ok? ==>
              var next := StepOrStay(lane, e);
              next.phase.Reserved? && next.child == Some(e.child) && next.lastEpoch == e.epoch
    ensures e.Release? && Transition(lane, e).Ok? ==>
              e.receipt.laneEpoch == lane.lastEpoch && StepOrStay(lane, e).phase.Idle?
  {
  }

  lemma {:induction false} RunsStayOwned(lane: Lane, events: seq<LaneEvent>, n: nat)
    requires Owned(lane) && n <= |events|
    ensures Owned(At(lane, events, n))
  {
    if n > 0 {
      RunsStayOwned(lane, events, n - 1);
      StepContract(At(lane, events, n - 1), events[n - 1]);
    }
  }

  /** Epochs never go back, and leaving IDLE always takes a newer one. */
  lemma {:induction false} EpochGrows(lane: Lane, events: seq<LaneEvent>, i: nat, j: nat)
    requires Owned(lane) && i <= j <= |events|
    ensures At(lane, events, i).lastEpoch <= At(lane, events, j).lastEpoch
    ensures At(lane, events, i).phase.Idle? && !At(lane, events, j).phase.Idle? ==>
              At(lane, events, i).lastEpoch < At(lane, events, j).lastEpoch
    decreases j
  {
    if i < j {
      EpochGrows(lane, events, i, j - 1);
      RunsStayOwned(lane, events, j - 1);
      StepContract(At(lane, events, j - 1), events[j - 1]);
    }
  }

  /** The epochs of accepted reservations strictly increase along every run. */
  lemma ReservationEpochsIncrease(lane: Lane, events: seq<LaneEvent>, i: nat, j: nat)
    requires Owned(lane) && i < j < |events|
    requires Accepted(lane, events, i) && events[i].Reserve?
    requires Accepted(lane, events, j) && events[j].Reserve?
    ensures events[i].epoch < events[j].epoch
  {
    RunsStayOwned(lane, events, i);
    StepContract(At(lane, events, i), events[i]);
    EpochGrows(lane, events, i + 1, j);
  }

  /** A later release needs a receipt of a later epoch, so no receipt releases the lane twice. */
  lemma ReceiptEpochsIncrease(lane: Lane, events: seq<LaneEvent>, i: nat, j: nat)
    requires Owned(lane) && i < j < |events|
    requires Accepted(lane, events, i) && events[i].Release?
    requires Accepted(lane, events, j) && events[j].Release?
    ensures events[i].receipt.laneEpoch < events[j].receipt.laneEpoch
  {
    RunsStayOwned(lane, events, i);
    StepContract(At(lane, events, i), events[i]);
    EpochGrows(lane, events, i + 1, j);
    RunsStayOwned(lane, events, j);
    StepContract(At(lane, events, j), events[j]);
  }

  /** The newest reservation accepted before a point, if the lane is owned there. */
  lemma {:induction false} NewestReservation(lane: Lane, events: seq<LaneEvent>, n: nat) returns (i: nat)
    requires Owned(lane) && lane.phase.Idle? && n <= |events|
    requires !At(lane, events, n).phase.Idle?
    ensures i < n && Accepted(lane, events, i) && events[i].Reserve?
    ensures forall k :: i < k < n && Accepted(lane, events, k) ==> !events[k].Reserve?
    ensures forall k :: i < k <= n ==> !At(lane, events, k).phase.Idle?
    ensures events[i].epoch == At(lane, events, n).lastEpoch
    ensures Some(events[i].child) == At(lane, events, n).child
  {
    RunsStayOwned(lane, events, n - 1);
    StepContract(At(lane, events, n - 1), events[n - 1]);
    if Accepted(lane, events, n - 1) && events[n - 1].Reserve? {
      i := n - 1;
    } else {
      i := NewestReservation(lane, events, n - 1);
    }
  }

  /** An accepted receipt names the child and the epoch of the newest reservation; a stale one is refused. */
  lemma ReleaseAnswersTheNewestReservation(lane: Lane, events: seq<LaneEvent>, j: nat) returns (i: nat)
    requires Owned(lane) && lane.phase.Idle? && j < |events|
    requires Accepted(lane, events, j) && events[j].Release?
    ensures i < j && Accepted(lane, events, i) && events[i].Reserve?
    ensures forall k :: i < k < j && Accepted(lane, events, k) ==> !events[k].Reserve?
    ensures events[j].receipt.laneEpoch == events[i].epoch && events[j].receipt.childId == events[i].child
  {
    i := NewestReservation(lane, events, j);
    RunsStayOwned(lane, events, j);
    StepContract(At(lane, events, j), events[j]);
  }

  /** Between a reservation and the next IDLE the owner stays, through RECOVERY and PARKED as well. */
  lemma {:induction false} OwnerIsStable(lane: Lane, events: seq<LaneEvent>, i: nat, j: nat)
    requires Owned(lane) && i < j <= |events|
    requires Accepted(lane, events, i) && events[i].Reserve?
    requires forall k :: i < k <= j ==> !At(lane, events, k).phase.Idle?
    ensures At(lane, events, j).child == Some(events[i].child)
    decreases j
  {
    RunsStayOwned(lane, events, j - 1);
    StepContract(At(lane, events, j - 1), events[j - 1]);
    if i + 1 < j { OwnerIsStable(lane, events, i, j - 1); }
  }

  /** Two children only hold the lane one after the other: it was idle in between. */
  lemma OneOwnerAtATime(lane: Lane, events: seq<LaneEvent>, i: nat, j: nat)
    requires Owned(lane) && i < j < |events|
    requires Accepted(lane, events, i) && events[i].Reserve?
    requires Accepted(lane, events, j) && events[j].Reserve?
    requires events[i].child != events[j].child
    ensures exists k :: i < k <= j && At(lane, events, k).phase.Idle?
  {
    if forall k :: i < k <= j ==> !At(lane, events, k).phase.Idle? {
      OwnerIsStable(lane, events, i, j);
      assert false;
    }
  }

  /** What an event leaves of the bookkeeping identity and of the last proof. */
  lemma StepBooks(lane: Lane, e: LaneEvent)
    requires Owned(lane)
    ensures var next := StepOrStay(lane, e);
            && (next.phase.Bookkeeping? ==>
                  if e.StartBookkeeping? && Transition(lane, e).Ok? then Books(next, e)
                  else lane.phase.Bookkeeping? && Identity(next) == Identity(lane))
            && Proof(next) == if e.Release? && Transition(lane, e).Ok? then ReceiptProof(e.receipt) else Proof(lane)
  {
  }

  /** The bookkeeping identity a release is checked against. */
  function Identity(lane: Lane): seq<Option<string>> {
    [lane.mergeJournal, lane.pushIntent, lane.pushJournal, lane.changelogCommit, lane.expectedBase]
  }

  predicate Books(lane: Lane, e: LaneEvent)
    requires e.StartBookkeeping?
  {
    Identity(lane) == [Some(e.journal), Some(e.intent), Some(e.pushJournalId), Some(e.commit), Some(e.baseSha)]
  }

  function Proof(lane: Lane): seq<Option<string>> {
    [lane.lastReceipt, lane.lastRemoteHead, lane.lastAncestryProof]
  }

  function ReceiptProof(r: PostMerge.Receipt): seq<Option<string>> {
    [Some(r.pushReceiptId), Some(r.observedRemoteHead), Some(r.ancestryProof)]
  }

  /** While bookkeeping, the lane carries exactly what the newest accepted bookkeeping event bound. */
  lemma {:induction false} BookkeepingIsTheNewest(lane: Lane, events: seq<LaneEvent>, n: nat) returns (i: nat)
    requires Owned(lane) && lane.phase.Idle? && n <= |events| && At(lane, events, n).phase.Bookkeeping?
    ensures i < n && Accepted(lane, events, i) && events[i].StartBookkeeping? && Books(At(lane, events, n), events[i])
    ensures forall k :: i < k < n && Accepted(lane, events, k) ==> !events[k].StartBookkeeping?
  {
    RunsStayOwned(lane, events, n - 1);
    StepBooks(At(lane, events, n - 1), events[n - 1]);
    hide Transition, Identity;
    if Accepted(lane, events, n - 1) && events[n - 1].StartBookkeeping? {
      i := n - 1;
    } else {
      i := BookkeepingIsTheNewest(lane, events, n - 1);
    }
  }

  /** An accepted receipt proves the push of the newest bookkeeping event: its intent, journal, base and commit. */
  lemma ReleaseConfirmsTheNewestBookkeeping(lane: Lane, events: seq<LaneEvent>, j: nat) returns (i: nat)
    requires Owned(lane) && lane.phase.Idle? && Accepted(lane, events, j) && events[j].Release?
    ensures i < j && Accepted(lane, events, i) && events[i].StartBookkeeping?
    ensures forall k :: i < k < j && Accepted(lane, events, k) ==> !events[k].StartBookkeeping?
    ensures var r := events[j].receipt;
            && r.pushIntentId == events[i].intent && r.pushJournalId == events[i].pushJournalId
            && r.expectedBaseSha == events[i].baseSha && r.pushedCommit == events[i].commit
  {
    i := BookkeepingIsTheNewest(lane, events, j);
    var at := At(lane, events, j);
    assert Identity(at)[1] == Some(events[i].intent) && Identity(at)[2] == Some(events[i].pushJournalId);
    assert Identity(at)[3] == Some(events[i].commit) && Identity(at)[4] == Some(events[i].baseSha);
  }

  /** The lane remembers the proof of its newest accepted release, through every later reservation. */
  lemma {:induction false} ProofIsTheNewestRelease(lane: Lane, events: seq<LaneEvent>, i: nat, n: nat)
    requires Owned(lane) && i < n <= |events| && Accepted(lane, events, i) && events[i].Release?
    requires forall k :: i < k < n && Accepted(lane, events, k) ==> !events[k].Release?
    ensures Proof(At(lane, events, n)) == ReceiptProof(events[i].receipt)
    decreases n
  {
    RunsStayOwned(lane, events, n - 1);
    StepBooks(At(lane, events, n - 1), events[n - 1]);
    hide Transition, Proof, ReceiptProof;
    if i < n - 1 { ProofIsTheNewestRelease(lane, events, i, n - 1); }
  }

  function Reservations(lane: Lane, events: seq<LaneEvent>, n: nat): nat
    requires n <= |events|
  {
    if n == 0 then 0
    else Reservations(lane, events, n - 1)
         + if Accepted(lane, events, n - 1) && events[n - 1].Reserve? then 1 else 0
  }

  function Releases(lane: Lane, events: seq<LaneEvent>, n: nat): nat
    requires n <= |events|
  {
    if n == 0 then 0
    else Releases(lane, events, n - 1)
         + if Accepted(lane, events, n - 1) && events[n - 1].Release? then 1 else 0
  }

  /**
   In every run of a fresh lane each release uses up a reservation of its own, and while the lane is owned
   one more reservation is outstanding.
   */
  lemma {:induction false} ReleasesAreReserved(repository: string, parentBranch: string, events: seq<LaneEvent>, n: nat)
    requires n <= |events|
    ensures var lane := FreshLane(repository, parentBranch);
            Releases(lane, events, n) + (if At(lane, events, n).phase.Idle? then 0 else 1)
            <= Reservations(lane, events, n)
  {
    var lane := FreshLane(repository, parentBranch);
    if n > 0 {
      ReleasesAreReserved(repository, parentBranch, events, n - 1);
      RunsStayOwned(lane, events, n - 1);
      StepContract(At(lane, events, n - 1), events[n - 1]);
      hide Transition;
      LeavesIdleByReserving(At(lane, events, n - 1), events[n - 1]);
    }
  }

  lemma LeavesIdleByReserving(lane: Lane, e: LaneEvent)
    ensures lane.phase.Idle? && !StepOrStay(lane, e).phase.Idle? ==> e.Reserve? && Transition(lane, e).Ok?
    ensures e.Release? && Transition(lane, e).Ok? ==> !lane.phase.Idle?
  {
  }

  /** Delivering an accepted event again is absorbed or refused, never a third state. */
  lemma RedeliveryIsSafe(lane: Lane, e: LaneEvent)
    requires Transition(lane, e).Ok?
    ensures var next := StepOrStay(lane, e);
            if e.StartIntegration? || e.StartBookkeeping? then Transition(next, e) == Ok(next)
            else Transition(next, e).Err?
  {
  }

  /**
   One receipt accepted by the post-merge machine and by its lane binds the two to the same child,
   epoch, push and commit.
   */
  lemma ReceiptBindsBothMachines(lane: Lane, s: PostMerge.State, e: PostMerge.Event, laneChild: string)
    requires e.PushComplete? && PostMerge.Advance(s, e).Ok? && !s.phase.Complete?
    requires lane.phase.Bookkeeping? && Transition(lane, Release(laneChild, e.receipt)).Ok?
    ensures laneChild == e.child
    ensures s.evidence.merge.repository == Some(lane.repository)
    ensures s.evidence.merge.parentBranch == Some(lane.parentBranch)
    ensures lane.child == s.evidence.merge.childId
    ensures lane.epoch == s.evidence.merge.laneEpoch
    ensures lane.pushIntent == s.evidence.push.intentId && lane.pushJournal == s.evidence.push.journalId
    ensures lane.expectedBase == s.evidence.push.expectedBase
    ensures lane.changelogCommit == s.evidence.log.commit
    ensures lane.changelogCommit == PostMerge.Advance(s, e).value.evidence.push.pushedCommit
  {
  }
}
