/** Whole runs of a recursive scope: the partition, the barrier, exactly one completion per child, and replay. */
module ScopeTheorems {
  import opened Prelude
  import opened Children
  import opened Scope
  import opened ScopeBarriers
  import opened ScopeRuns
  import PostMerge
  import PM = PostMergeRuns

  lemma {:induction false} NormalizedKeepsChildren(groups: seq<Group>)
    ensures multiset(Flatten(Normalized(groups))) == multiset(Flatten(groups))
    ensures forall g :: g in Normalized(groups) ==> Ordered(g.records)
  {
    if groups != [] {
      SortIsOrdered(groups[0].records);
      NormalizedKeepsChildren(groups[1..]);
    }
  }

  /** A plan the constructor accepts is valid, and holds exactly the children that were declared. */
  lemma LoadedPlansAreValid(raw: Plan)
    requires WellFormedPlan(NormalizedPlan(raw))
    ensures ValidPlan(NormalizedPlan(raw))
    ensures multiset(All(NormalizedPlan(raw))) == multiset(All(raw))
  {
    SortIsOrdered(raw.parallel);
    NormalizedKeepsChildren(raw.ordered);
  }

  /** A phase that still carries completion books. */
  predicate Counting(phase: Phase) {
    phase.Planning? || phase.Running? || phase.AllMerged?
  }

  predicate Finishing(phase: Phase) {
    phase.Finalizing? || phase.Done? || phase.PRFiled?
  }

  /**
   The contract of every event: a refusal comes from a guard, an accepted event keeps the invariant, completes
   at most the one active child it names, and enters the finishing phases from the all-merged phase only.
   */
  ghost predicate StepContract(p: Plan, phase: Phase, e: Event, o: Outcome) {
    && o != Err(Invalid)
    && (o.Ok? ==>
          && PhaseInv(p, o.value)
          && (Counting(o.value) ==>
                && Counting(phase)
                && (CompletedIn(o.value) == CompletedIn(phase)
                    || (phase.Running? && ActiveRecord(phase.run, Subject(e)).Some?
                        && CompletedIn(o.value) == CompletedIn(phase) + {Subject(e)})))
          && (Finishing(o.value) ==> phase.AllMerged? || Finishing(phase)))
  }

  /** The identity a phase carries is the plan's, so the constructors' identity check passes. */
  lemma ScopeKept(p: Plan, phase: Phase)
    requires ValidPlan(p) && PhaseInv(p, phase) && Automatic(phase)
    ensures ScopeOf(phase) == p.scope && ValidScope(p.scope)
  {
  }

  /** A failure or a park request stops a phase under its own path, or is refused for an empty text. */
  lemma StopIs(phase: Phase, e: Event)
    requires Automatic(phase) && ValidScope(ScopeOf(phase)) && (e.FailureRecorded? || e.ParkRequested?)
    ensures Transition(phase, e)
         == if e.FailureRecorded? then
              (if Empty(e.reason) then Err(Illegal) else Ok(Failed(e.reason, ScopeOf(phase).path)))
            else if Empty(e.cause) || Empty(e.diagnostic) then Err(Illegal)
            else Ok(Parked(e.cause, e.diagnostic, ScopeOf(phase).path))
  {
    hide RunningTransition, ReleaseFirstStage;
  }

  /** Stopping is open to every automatic phase. */
  lemma StopStepKeeps(p: Plan, phase: Phase, e: Event)
    requires ValidPlan(p) && PhaseInv(p, phase) && Automatic(phase) && (e.FailureRecorded? || e.ParkRequested?)
    ensures StepContract(p, phase, e, Transition(phase, e))
  {
    hide Transition, Inv, ValidPlan, AllBooked, ActiveRecord, CompletedIn, ScopeOf, ValidScope;
    ScopeKept(p, phase);
    StopIs(phase, e);
  }

  lemma PlanningStepKeeps(p: Plan, e: Event)
    requires ValidPlan(p)
    ensures StepContract(p, Planning(p), e, Transition(Planning(p), e))
  {
    hide ReleaseFirstStage, Inv, AllBooked, WellFormedPlan, Sorted;
    if e.FailureRecorded? || e.ParkRequested? {
      StopStepKeeps(p, Planning(p), e);
    } else if e.StageReleased? { ReleasedPhaseHolds(p, e.order, e.childIds); }
  }

  lemma RunningStepKeeps(p: Plan, r: Run, e: Event)
    requires ValidPlan(p) && Inv(p, r)
    ensures StepContract(p, Running(r), e, Transition(Running(r), e))
  {
    hide RunningTransition, Inv, WellFormedPlan, Sorted, AllBooked, ActiveRecord;
    if e.FailureRecorded? || e.ParkRequested? {
      StopStepKeeps(p, Running(r), e);
    } else {
      RunningKeeps(p, r, e);
    }
  }

  lemma TransitionKeeps(p: Plan, phase: Phase, e: Event)
    requires ValidPlan(p) && PhaseInv(p, phase)
    ensures StepContract(p, phase, e, Transition(phase, e))
  {
    match phase
    case Planning(q) => PlanningStepKeeps(p, e);
    case Running(r) => RunningStepKeeps(p, r, e);
    case _ =>
  }

  function StepOrStay(phase: Phase, e: Event): Phase {
    match Transition(phase, e)
    case Ok(next) => next
    case Err(_) => phase
  }

  /** The phase after the first n events; a refused event leaves the durable phase alone. */
  function At(p: Plan, events: seq<Event>, n: nat): Phase
    requires n <= |events|
  {
    if n == 0 then Planning(p) else StepOrStay(At(p, events, n - 1), events[n - 1])
  }

  /** The n-th event completes a child. */
  predicate Completes(p: Plan, events: seq<Event>, n: nat) {
    n < |events| && Counting(At(p, events, n + 1))
    && CompletedIn(At(p, events, n + 1)) != CompletedIn(At(p, events, n))
  }

  /** The children completed by the first n events, in order of completion. */
  function Log(p: Plan, events: seq<Event>, n: nat): seq<string>
    requires n <= |events|
  {
    if n == 0 then []
    else Log(p, events, n - 1) + if Completes(p, events, n - 1) then [Subject(events[n - 1])] else []
  }

  /** Every reached phase satisfies the invariant, and the next event never trips a phase constructor. */
  lemma {:induction false} RunsKeepTheInvariant(p: Plan, events: seq<Event>, n: nat)
    requires ValidPlan(p) && n <= |events|
    ensures PhaseInv(p, At(p, events, n))
    ensures forall next :: Transition(At(p, events, n), next) != Err(Invalid)
  {
    if n > 0 {
      RunsKeepTheInvariant(p, events, n - 1);
      TransitionKeeps(p, At(p, events, n - 1), events[n - 1]);
    }
    forall next ensures Transition(At(p, events, n), next) != Err(Invalid) {
      TransitionKeeps(p, At(p, events, n), next);
    }
  }

  /** The sequence lists every element of the set exactly once. */
  ghost predicate Lists(ids: seq<string>, all: set<string>) {
    && (forall i, j :: 0 <= i < j < |ids| ==> ids[i] != ids[j])
    && (forall id :: id in ids <==> id in all)
    && |ids| == |all|
  }

  lemma ListOneMore(ids: seq<string>, all: set<string>, id: string)
    requires Lists(ids, all) && id !in all
    ensures Lists(ids + [id], all + {id})
  {
  }

  /** A completion is of an active child, which was not done before. */
  lemma CompletionIsNew(p: Plan, events: seq<Event>, n: nat)
    requires ValidPlan(p) && n < |events| && Counting(At(p, events, n + 1))
    ensures Counting(At(p, events, n))
    ensures CompletedIn(At(p, events, n + 1))
         == CompletedIn(At(p, events, n)) + if Completes(p, events, n) then {Subject(events[n])} else {}
    ensures Completes(p, events, n) ==>
              Subject(events[n]) !in CompletedIn(At(p, events, n)) && At(p, events, n).Running?
  {
    var before := At(p, events, n);
    RunsKeepTheInvariant(p, events, n);
    TransitionKeeps(p, before, events[n]);
    if Completes(p, events, n) { ActiveIsPending(p, before.run, Subject(events[n])); }
  }

  lemma {:induction false} LogIsCompleted(p: Plan, events: seq<Event>, n: nat)
    requires ValidPlan(p) && n <= |events| && Counting(At(p, events, n))
    ensures Lists(Log(p, events, n), CompletedIn(At(p, events, n)))
  {
    hide Transition, Inv, WellFormedPlan, Sorted;
    if n > 0 {
      var done := CompletedIn(At(p, events, n - 1));
      CompletionIsNew(p, events, n - 1);
      LogIsCompleted(p, events, n - 1);
      if Completes(p, events, n - 1) {
        ListOneMore(Log(p, events, n - 1), done, Subject(events[n - 1]));
      } else {
        assert Log(p, events, n) == Log(p, events, n - 1);
      }
    }
  }

  /**
   A run reaches the all-merged phase after exactly one completion per declared child, and that phase
   confirms exactly the declared children.
   */
  lemma AllMergedAfterOneCompletionPerChild(p: Plan, events: seq<Event>, n: nat)
    requires ValidPlan(p) && n <= |events| && At(p, events, n).AllMerged?
    ensures |Log(p, events, n)| == |All(p)|
    ensures Lists(Log(p, events, n), Ids(All(p))) && At(p, events, n).confirmed.Keys == Ids(All(p))
  {
    RunsKeepTheInvariant(p, events, n);
    LogIsCompleted(p, events, n);
    UniqueCount(All(p));
  }

  /** What the all-merged phase confirms of a pull-request child: a finished machine bound to that very child. */
  lemma MergedChildrenAreProven(p: Plan, events: seq<Event>, n: nat, c: Child)
    requires ValidPlan(p) && n <= |events| && At(p, events, n).AllMerged? && c in All(p)
    ensures c.id in At(p, events, n).confirmed
    ensures var s := At(p, events, n).confirmed[c.id];
            match c.kind
            case Worker => PostMerge.Has(s.evidence.results.worker)
            case Leaf => PostMerge.Has(s.evidence.results.leaf) || s.phase.Complete?
            case SubTL =>
              && s.phase.Complete? && s.evidence.merge.childId == Some(c.id)
              && (PM.Linked(s) ==>
                    PM.IssueClosed(s.evidence) && PM.OneCommit(s.evidence) && PM.PushIsFresh(s.evidence))
  {
    RunsKeepTheInvariant(p, events, n);
    assert c.id in Ids(All(p));
    assert Booked(c, true, At(p, events, n).confirmed[c.id]);
  }

  // ---- every running phase

  /** Each declared child is pending or completed, never both, and nothing else is on the books. */
  lemma ChildrenArePartitioned(p: Plan, events: seq<Event>, n: nat)
    requires ValidPlan(p) && n <= |events| && At(p, events, n).Running?
    ensures var r := At(p, events, n).run;
            var pending := r.parallel + Flatten(r.groups);
            && (forall c :: c in All(p) ==> (c in pending <==> c.id !in r.completed))
            && (forall c :: c in pending ==> c in All(p))
            && (forall id :: id in r.completed ==> r.completed[id] in All(p) && r.completed[id].id == id)
            && |pending| + |r.completed| == |All(p)|
            && r.post.Keys == Ids(All(p))
  {
    RunsKeepTheInvariant(p, events, n);
    var r := At(p, events, n).run;
    PendingWork(p, r);
    CompletedAreDeclared(p, r);
    RestCount(All(p), r.completed.Keys);
    assert |r.completed.Keys| == |r.completed|;
  }

  /** Pending stages are contiguous from the current order; order zero means every stage is finished. */
  lemma PendingStagesAreContiguous(p: Plan, events: seq<Event>, n: nat)
    requires ValidPlan(p) && n <= |events| && At(p, events, n).Running?
    ensures var r := At(p, events, n).run;
            if r.order == 0 then
              r.groups == [] && r.parallel != [] && forall c :: c in Flatten(p.ordered) ==> c.id in r.completed
            else
              r.groups != [] && ContiguousFrom(r.groups, r.order)
              && r.order + |r.groups| == |p.ordered| + 1
  {
    RunsKeepTheInvariant(p, events, n);
    var r := At(p, events, n).run;
    PendingIsContiguous(p.ordered, r.completed.Keys, 1);
    PendingIsRest(p.ordered, r.completed.Keys);
    LastOrderStays(p.ordered, r.completed.Keys, 1);
    if r.order == 0 {
      forall c | c in Flatten(p.ordered) ensures c.id in r.completed {
        assert c !in Without(Flatten(p.ordered), r.completed.Keys);
      }
    }
  }

  lemma {:induction false} LastOrderStays(ordered: seq<Group>, done: set<string>, first: int)
    requires ContiguousFrom(ordered, first)
    ensures var g := Pending(ordered, done); g != [] ==> OrderOf(g) + |g| == first + |ordered|
  {
    if ordered != [] {
      TailIsContiguous(ordered, first);
      LastOrderStays(ordered[1..], done, first + 1);
    }
  }

  lemma {:induction false} EarlierStagesAreDone(ordered: seq<Group>, done: set<string>, j: nat, k: nat, c: Child)
    requires j < k < |ordered| && Barrier(ordered, done) && Unique(Flatten(ordered))
    requires c in ordered[k].records && Pending(ordered, done) != [] && c in Pending(ordered, done)[0].records
    ensures forall d :: d in ordered[j].records ==> d.id in done
  {
    var head := ordered[0].records;
    UniqueSplit(head, Flatten(ordered[1..]));
    FlattenMembers(ordered[1..], ordered[k]);
    assert Without(head, done) == [];
    forall d | d in head ensures d.id in done {
      assert d !in Without(head, done);
    }
    if j > 0 { EarlierStagesAreDone(ordered[1..], done, j - 1, k - 1, c); }
  }

  /** No child of a later stage completes while an earlier stage has unfinished children. */
  lemma StagesCompleteInOrder(p: Plan, events: seq<Event>, n: nat, j: nat, k: nat, c: Child)
    requires ValidPlan(p) && Completes(p, events, n) && j < k < |p.ordered|
    requires c in p.ordered[k].records && c.id == Subject(events[n])
    ensures At(p, events, n).Running?
    ensures forall d :: d in p.ordered[j].records ==> d.id in At(p, events, n).run.completed
  {
    var phase := At(p, events, n);
    RunsKeepTheInvariant(p, events, n);
    TransitionKeeps(p, phase, events[n]);
    ActiveIsPending(p, phase.run, c.id);
    UniqueSplit(p.parallel, Flatten(p.ordered));
    FlattenMembers(p.ordered, p.ordered[k]);
    SameRecord(All(p), c, ActiveRecord(phase.run, c.id).value);
    EarlierStagesAreDone(p.ordered, phase.run.completed.Keys, j, k, c);
  }

  // ---- results

  /** Completing a worker files its result under its own identity and leaves every other child's books alone. */
  lemma WorkerResultIsFiled(p: Plan, r: Run, id: string, digest: string)
    requires ValidPlan(p) && Inv(p, r) && CompleteWorker(r, id, digest).Ok?
    ensures var books := BooksOf(CompleteWorker(r, id, digest).value);
            && books.Keys == r.post.Keys && id in r.post
            && books[id].evidence.results.worker == Some(digest)
            && forall k :: k in r.post && k != id ==> books[k] == r.post[k]
  {
    hide CompleteWorker, Inv, WellFormedPlan, Sorted, PhaseInv, CompletedIn, BooksOf;
    CompleteWorkerKeeps(p, r, id, digest);
  }

  /** Likewise for a leaf, even in the middle of its post-merge sequence. */
  lemma LeafResultIsFiled(p: Plan, r: Run, id: string, digest: string)
    requires ValidPlan(p) && Inv(p, r) && CompleteLeaf(r, id, digest).Ok?
    ensures var books := BooksOf(CompleteLeaf(r, id, digest).value);
            && books.Keys == r.post.Keys && id in r.post
            && books[id].evidence.results.leaf == Some(digest) && books[id].phase.NotRequired?
            && forall k :: k in r.post && k != id ==> books[k] == r.post[k]
  {
    hide CompleteLeaf, Inv, WellFormedPlan, Sorted, PhaseInv, CompletedIn, BooksOf;
    CompleteLeafKeeps(p, r, id, digest);
  }

  /** A running scope is never stuck: some child is active. */
  lemma SomeChildIsActive(p: Plan, events: seq<Event>, n: nat) returns (c: Child)
    requires ValidPlan(p) && n <= |events| && At(p, events, n).Running?
    ensures ActiveRecord(At(p, events, n).run, c.id).Some?
  {
    RunsKeepTheInvariant(p, events, n);
    var r := At(p, events, n).run;
    if r.parallel != [] {
      c := r.parallel[0];
      assert c in r.parallel + GroupAt(r.groups, r.order);
    } else {
      PendingIsContiguous(p.ordered, r.completed.Keys, 1);
      c := r.groups[0].records[0];
      assert c in r.parallel + GroupAt(r.groups, r.order);
    }
  }

  lemma WorkerAcceptedIff(p: Plan, r: Run, id: string, digest: string)
    requires ValidPlan(p) && Inv(p, r)
    ensures CompleteWorker(r, id, digest).Ok? <==>
              ActiveRecord(r, id).Some? && ActiveRecord(r, id).value.kind.Worker? && !Empty(digest)
  {
    CompleteWorkerKeeps(p, r, id, digest);
    if ActiveRecord(r, id).Some? { ActiveIsBooked(p, r, id); }
    hide Inv, RemoveActive, AllBooked, WellFormedPlan, Sorted;
    if ActiveRecord(r, id).Some? && ActiveRecord(r, id).value.kind.Worker? && !Empty(digest) {
      var c := ActiveRecord(r, id).value;
      CompletionCannotFail(p, r, c, WorkerDone(r.post[id], digest), r.results[WorkerResult(id) := digest]);
    }
  }

  lemma LeafAcceptedIff(p: Plan, r: Run, id: string, digest: string)
    requires ValidPlan(p) && Inv(p, r)
    ensures CompleteLeaf(r, id, digest).Ok? <==>
              ActiveRecord(r, id).Some? && ActiveRecord(r, id).value.kind.Leaf? && !Empty(digest)
  {
    CompleteLeafKeeps(p, r, id, digest);
    if ActiveRecord(r, id).Some? { ActiveIsBooked(p, r, id); }
    hide Inv, RemoveActive, AllBooked, WellFormedPlan, Sorted;
    if ActiveRecord(r, id).Some? && ActiveRecord(r, id).value.kind.Leaf? && !Empty(digest) {
      var c := ActiveRecord(r, id).value;
      CompletionCannotFail(p, r, c, LeafDone(r.post[id], digest), r.results[LeafResult(id) := digest]);
    }
  }

  lemma CompletionCannotFail(p: Plan, r: Run, c: Child, state: PostState, results: map<ResultKey, string>)
    requires ValidPlan(p) && Inv(p, r) && ActiveRecord(r, c.id) == Some(c) && Booked(c, true, state)
    ensures RemoveActive(r, c, Book(r, c, state).(results := results)).Ok?
  {
    RemoveActiveKeeps(p, r, c, state, results);
  }

  /** A result is accepted exactly from an active child of its kind that carries a digest. */
  lemma ResultIsAcceptedIff(p: Plan, events: seq<Event>, n: nat, id: string, digest: string)
    requires ValidPlan(p) && n <= |events| && At(p, events, n).Running?
    ensures var r := At(p, events, n).run;
            var found := ActiveRecord(r, id);
            && (CompleteWorker(r, id, digest).Ok? <==> found.Some? && found.value.kind.Worker? && !Empty(digest))
            && (CompleteLeaf(r, id, digest).Ok? <==> found.Some? && found.value.kind.Leaf? && !Empty(digest))
  {
    hide CompleteWorker, CompleteLeaf, Inv, At;
    RunsKeepTheInvariant(p, events, n);
    WorkerAcceptedIff(p, At(p, events, n).run, id, digest);
    LeafAcceptedIff(p, At(p, events, n).run, id, digest);
  }

  lemma ActiveIsBooked(p: Plan, r: Run, id: string)
    requires ValidPlan(p) && Inv(p, r) && ActiveRecord(r, id).Some?
    ensures id in r.post
  {
    ActiveIsPending(p, r, id);
    assert id in Ids(All(p));
  }

  // ---- finishing

  /** Finalization, and either finished phase, is reached only through the all-merged phase. */
  lemma {:induction false} FinishedThroughAllMerged(p: Plan, events: seq<Event>, n: nat) returns (i: nat)
    requires ValidPlan(p) && n <= |events|
    requires Finishing(At(p, events, n))
    ensures i < n && At(p, events, i).AllMerged? && |Log(p, events, i)| == |All(p)|
    ensures At(p, events, n).Done? ==> HasProof(At(p, events, n).proof, ROOT_PROOF)
    ensures At(p, events, n).PRFiled? ==> HasProof(At(p, events, n).proof, HANDOFF_PROOF)
  {
    hide Inv, AllBooked, WellFormedPlan, Sorted, RunningTransition, ReleaseFirstStage;
    var before := At(p, events, n - 1);
    RunsKeepTheInvariant(p, events, n - 1);
    TransitionKeeps(p, before, events[n - 1]);
    if before.AllMerged? {
      i := n - 1;
      AllMergedAfterOneCompletionPerChild(p, events, i);
    } else {
      i := FinishedThroughAllMerged(p, events, n - 1);
    }
  }
}
