/** A run of a scope contains a run of each child's post-merge machine, so what holds of those runs holds in it. */
module ScopeProjections {
  import opened Prelude
  import opened Children
  import opened Scope
  import opened ScopeBarriers
  import opened ScopeRuns
  import opened ScopeTheorems
  import opened ScopeReplay
  import PostMerge
  import PM = PostMergeRuns
  import History = PostMergeHistory
  import Sources = PostMergeSources

  /** The event is a post-merge step of this child, and the running scope accepts it. */
  predicate Takes(phase: Phase, e: Event, id: string) {
    phase.Running? && e.PostMergeStep? && e.step.child == id && PostMergeTransition(phase.run, e.step).Ok?
  }

  predicate Stepped(p: Plan, events: seq<Event>, n: nat, id: string) {
    n < |events| && Takes(At(p, events, n), events[n], id)
  }

  /** The post-merge steps of one child that the scope accepted, in order. */
  function Steps(p: Plan, events: seq<Event>, n: nat, id: string): seq<PostMerge.Event>
    requires n <= |events|
  {
    if n == 0 then []
    else Steps(p, events, n - 1, id) + if Stepped(p, events, n - 1, id) then [events[n - 1].step] else []
  }

  // ---- one event of a running scope

  /** What one accepted event does to the books of one child. */
  ghost predicate BookedBy(c: Child, before: PostState, e: Event, after: PostState) {
    if e.PostMergeStep? && e.step.child == c.id then PostMerge.Advance(before, e.step) == Ok(after)
    else after == before || (c.kind.Leaf? && e.LeafCompleted? && e.child == c.id && after == LeafDone(before, e.result))
  }

  lemma StepBooks(p: Plan, r: Run, e: PostMerge.Event, d: Child)
    requires ValidPlan(p) && Inv(p, r) && d.id in r.post && PostMergeTransition(r, e).Ok?
    ensures var books := BooksOf(PostMergeTransition(r, e).value);
            d.id in books && BookedBy(d, r.post[d.id], PostMergeStep(e), books[d.id])
  {
    if !r.post[e.child].phase.Complete? {
      var c := ActiveRecord(r, e.child).value;
      AdvanceBooks(p, r, c, e, PostMerge.Advance(r.post[e.child], e).value, d);
    }
  }

  lemma AdvanceBooks(p: Plan, r: Run, c: Child, e: PostMerge.Event, state: PostState, d: Child)
    requires ValidPlan(p) && Inv(p, r) && e.child == c.id && ActiveRecord(r, c.id) == Some(c) && !c.kind.Worker?
    requires c.id in r.post && PostMerge.Advance(r.post[c.id], e) == Ok(state) && d.id in r.post
    requires PostMergeTransition(r, e).Ok?
    ensures var books := BooksOf(PostMergeTransition(r, e).value);
            d.id in books && BookedBy(d, r.post[d.id], PostMergeStep(e), books[d.id])
  {
    hide PostMergeTransition, Inv, ValidPlan, PostMerge.Advance, ActiveRecord;
    if state.phase.Complete? {
      PostMergeCompletes(p, r, c, e, state);
    } else {
      PostMergeProgresses(p, r, c, e, state, r.(post := r.post[c.id := state]));
    }
  }

  lemma WorkerBooks(p: Plan, r: Run, x: string, digest: string, c: Child)
    requires ValidPlan(p) && Inv(p, r) && c in All(p) && !c.kind.Worker? && c.id in r.post
    requires CompleteWorker(r, x, digest).Ok?
    ensures var books := BooksOf(CompleteWorker(r, x, digest).value); c.id in books && books[c.id] == r.post[c.id]
  {
    WorkerResultIsFiled(p, r, x, digest);
    WorkerIsOther(p, r, x, digest, c);
    hide CompleteWorker, Inv, WellFormedPlan, Sorted, BooksOf;
  }

  lemma WorkerFound(r: Run, x: string, digest: string)
    requires CompleteWorker(r, x, digest).Ok?
    ensures ActiveRecord(r, x).Some? && ActiveRecord(r, x).value.kind.Worker? && ActiveRecord(r, x).value.id == x
  {
    hide RemoveActive;
  }

  lemma WorkerIsOther(p: Plan, r: Run, x: string, digest: string, c: Child)
    requires ValidPlan(p) && Inv(p, r) && c in All(p) && !c.kind.Worker? && CompleteWorker(r, x, digest).Ok?
    ensures x != c.id
  {
    hide CompleteWorker, ActiveRecord, Shape, AllBooked, Sorted, ContiguousFrom, ValidScope;
    WorkerFound(r, x, digest);
    ActiveIsPending(p, r, x);
    if x == c.id { SameRecord(All(p), c, ActiveRecord(r, x).value); }
  }

  lemma LeafFound(r: Run, x: string, digest: string)
    requires CompleteLeaf(r, x, digest).Ok?
    ensures ActiveRecord(r, x).Some? && ActiveRecord(r, x).value.kind.Leaf? && ActiveRecord(r, x).value.id == x
  {
    hide RemoveActive;
  }

  lemma LeafIsItself(p: Plan, r: Run, digest: string, c: Child)
    requires ValidPlan(p) && Inv(p, r) && c in All(p) && CompleteLeaf(r, c.id, digest).Ok?
    ensures c.kind.Leaf?
  {
    hide CompleteLeaf, ActiveRecord, Shape, AllBooked, Sorted, ContiguousFrom, ValidScope;
    LeafFound(r, c.id, digest);
    ActiveIsPending(p, r, c.id);
    SameRecord(All(p), c, ActiveRecord(r, c.id).value);
  }

  lemma LeafBooks(p: Plan, r: Run, x: string, digest: string, c: Child)
    requires ValidPlan(p) && Inv(p, r) && c in All(p) && c.id in r.post && CompleteLeaf(r, x, digest).Ok?
    ensures var books := BooksOf(CompleteLeaf(r, x, digest).value);
            c.id in books && BookedBy(c, r.post[c.id], LeafCompleted(x, digest), books[c.id])
  {
    hide CompleteLeaf, Inv, WellFormedPlan, Sorted, ActiveRecord, LeafDone;
    CompleteLeafKeeps(p, r, x, digest);
    if x == c.id { LeafIsItself(p, r, digest, c); }
  }

  lemma RunningBooks(p: Plan, r: Run, e: Event, c: Child)
    requires ValidPlan(p) && Inv(p, r) && c in All(p) && !c.kind.Worker? && c.id in r.post
    requires RunningTransition(r, e).Ok?
    ensures var books := BooksOf(RunningTransition(r, e).value);
            c.id in books && BookedBy(c, r.post[c.id], e, books[c.id])
  {
    hide Inv, WellFormedPlan, Sorted, CompleteWorker, CompleteLeaf, PostMergeTransition;
    match e
    case ChildTerminal(x, _, digest) =>
      var found := ActiveRecord(r, x);
      if found.Some? && found.value.kind.Worker? && PostMerge.Has(digest) { WorkerBooks(p, r, x, digest.value, c); }
    case PostMergeStep(step) => StepBooks(p, r, step, c);
    case WorkerCompleted(x, result) => WorkerBooks(p, r, x, result, c);
    case LeafCompleted(x, result) => LeafBooks(p, r, x, result, c);
    case _ =>
  }

  // ---- the run of one child

  /** The books of a child follow its own run; a leaf's result may have settled them. */
  ghost predicate Follows(c: Child, s: PostState, steps: seq<PostMerge.Event>) {
    || s == PM.After(PostMerge.FRESH, steps)
    || (c.kind.Leaf? && exists digest :: s == LeafDone(PM.After(PostMerge.FRESH, steps), digest))
  }

  lemma LeafDoneTwice(s: PostState, a: string, b: string)
    ensures LeafDone(LeafDone(s, a), b) == LeafDone(s, b)
  {
  }

  /** Before the plan is released nothing was stepped. */
  lemma {:induction false} NoStepsBeforeRelease(p: Plan, events: seq<Event>, n: nat, id: string)
    requires ValidPlan(p) && n <= |events| && At(p, events, n).Planning?
    ensures Steps(p, events, n, id) == []
  {
    hide Transition, PostMergeTransition, ValidPlan, PhaseInv;
    if n > 0 {
      RunsKeepTheInvariant(p, events, n - 1);
      PlanningComesFirst(p, At(p, events, n - 1), events[n - 1]);
      NoStepsBeforeRelease(p, events, n - 1, id);
    }
  }

  lemma PlanningComesFirst(p: Plan, phase: Phase, e: Event)
    requires ValidPlan(p) && PhaseInv(p, phase)
    ensures StepOrStay(phase, e).Planning? ==> phase.Planning?
  {
    hide Inv, WellFormedPlan, Sorted, RunningTransition, ReleaseFirstStage, AllBooked;
    if phase.Running? && RunningTransition(phase.run, e).Ok? { RunningGoesOn(p, phase.run, e); }
  }

  lemma ReleaseBooks(p: Plan, e: Event, c: Child)
    requires ValidPlan(p) && c in All(p) && !c.kind.Worker?
    ensures var next := StepOrStay(Planning(p), e);
            next.Running? || next.AllMerged? ==> c.id in BooksOf(next) && BooksOf(next)[c.id] == PostMerge.FRESH
  {
    hide *;
    LeavesPlanning(p, e);
    if e.StageReleased? {
      ReleaseKeeps(p, e.order, e.childIds);
      StartBooks(p);
    }
    StartsFresh(p, c);
  }

  lemma LeavesPlanning(p: Plan, e: Event)
    ensures var next := StepOrStay(Planning(p), e);
            next.Running? || next.AllMerged? ==>
              e.StageReleased? && ReleaseFirstStage(p, e.order, e.childIds) == Ok(next)
  {
    hide ReleaseFirstStage, ValidScope;
  }

  lemma StartBooks(p: Plan)
    ensures BooksOf(Running(Start(p))) == Start(p).post
  {
    hide Start;
  }

  lemma StartsFresh(p: Plan, c: Child)
    requires ValidPlan(p) && c in All(p) && !c.kind.Worker?
    ensures c.id in Start(p).post && Start(p).post[c.id] == PostMerge.FRESH
  {
    DefaultedAt(All(p), map[], c);
    assert c.id in Ids(All(p));
    hide Sorted;
  }

  lemma OneMoreStep(steps: seq<PostMerge.Event>, e: PostMerge.Event)
    ensures PM.After(PostMerge.FRESH, steps + [e]) == PM.StepOrStay(PM.After(PostMerge.FRESH, steps), e)
  {
    History.AfterJoined(PostMerge.FRESH, steps, [e]);
    History.OneEvent(PM.After(PostMerge.FRESH, steps), e);
  }

  lemma SettledRefusesSteps(s: PostState, e: PostMerge.Event)
    requires s.phase.NotRequired?
    ensures PostMerge.Advance(s, e).Err?
  {
  }

  lemma FollowsOn(c: Child, before: PostState, steps: seq<PostMerge.Event>, e: Event, after: PostState)
    requires Follows(c, before, steps) && BookedBy(c, before, e, after)
    ensures Follows(c, after, if e.PostMergeStep? && e.step.child == c.id then steps + [e.step] else steps)
  {
    if e.PostMergeStep? && e.step.child == c.id {
      OneMoreStep(steps, e.step);
      if before.phase.NotRequired? { SettledRefusesSteps(before, e.step); }
    } else if e.LeafCompleted? && before != PM.After(PostMerge.FRESH, steps) {
      var digest :| before == LeafDone(PM.After(PostMerge.FRESH, steps), digest);
      LeafDoneTwice(PM.After(PostMerge.FRESH, steps), digest, e.result);
    }
    hide PostMerge.Advance, PM.After;
  }

  lemma RunningNextPhase(r: Run, e: Event)
    ensures var next := StepOrStay(Running(r), e);
            next.Running? || next.AllMerged? ==>
              next == if RunningTransition(r, e).Ok? then RunningTransition(r, e).value else Running(r)
  {
    hide RunningTransition;
    if e.PlanLoaded? || e.FailureRecorded? || e.ParkRequested? { StopsRefuse(r, e); }
  }

  lemma StopsRefuse(r: Run, e: Event)
    requires e.PlanLoaded? || e.FailureRecorded? || e.ParkRequested?
    ensures RunningTransition(r, e) == Err(Illegal)
  {
  }

  lemma MergedStays(phase: Phase, e: Event)
    requires !phase.Planning? && !phase.Running?
    ensures var next := StepOrStay(phase, e); next.Running? || next.AllMerged? ==> next == phase
  {
  }

  lemma RunningFollowsOn(p: Plan, r: Run, e: Event, c: Child, steps: seq<PostMerge.Event>, next: Phase)
    requires ValidPlan(p) && Inv(p, r) && c in All(p) && !c.kind.Worker?
    requires next == StepOrStay(Running(r), e) && (next.Running? || next.AllMerged?)
    requires c.id in r.post && Follows(c, r.post[c.id], steps)
    ensures c.id in BooksOf(next)
    ensures Follows(c, BooksOf(next)[c.id], if Takes(Running(r), e, c.id) then steps + [e.step] else steps)
  {
    hide Transition, Inv, ValidPlan, Follows, BookedBy, PostMergeTransition;
    hide CompleteWorker, CompleteLeaf, TerminalObserved;
    RunningNextPhase(r, e);
    if RunningTransition(r, e).Ok? {
      RunningBooks(p, r, e, c);
      FollowsOn(c, r.post[c.id], steps, e, BooksOf(next)[c.id]);
    }
  }

  lemma PhaseFollowsOn(p: Plan, phase: Phase, e: Event, c: Child, steps: seq<PostMerge.Event>, next: Phase)
    requires ValidPlan(p) && PhaseInv(p, phase) && c in All(p) && !c.kind.Worker?
    requires next == StepOrStay(phase, e) && (next.Running? || next.AllMerged?)
    requires phase.Planning? ==> steps == []
    requires phase.Running? || phase.AllMerged? ==> c.id in BooksOf(phase) && Follows(c, BooksOf(phase)[c.id], steps)
    ensures c.id in BooksOf(next)
    ensures Follows(c, BooksOf(next)[c.id], if Takes(phase, e, c.id) then steps + [e.step] else steps)
  {
    hide Transition, Inv, ValidPlan, Follows, AllBooked, Takes;
    if phase.Running? {
      RunningFollowsOn(p, phase.run, e, c, steps, next);
    } else if phase.Planning? {
      ReleaseFollows(p, e, c, next);
    } else {
      MergedStays(phase, e);
      NotTaken(phase, e, c.id);
    }
  }

  lemma NotTaken(phase: Phase, e: Event, id: string)
    requires !phase.Running?
    ensures !Takes(phase, e, id)
  {
  }

  lemma ReleaseFollows(p: Plan, e: Event, c: Child, next: Phase)
    requires ValidPlan(p) && c in All(p) && !c.kind.Worker?
    requires next == StepOrStay(Planning(p), e) && (next.Running? || next.AllMerged?)
    ensures c.id in BooksOf(next) && Follows(c, BooksOf(next)[c.id], []) && !Takes(Planning(p), e, c.id)
  {
    hide Transition, ValidPlan;
    ReleaseBooks(p, e, c);
  }

  /**
   In every run of a scope, the books of a pull-request child are those of its own machine after the steps the
   scope accepted for it, from a fresh start; except that a leaf's result may have settled them.
   */
  lemma {:induction false} ChildRunsItsMachine(p: Plan, events: seq<Event>, n: nat, c: Child)
    requires ValidPlan(p) && n <= |events| && c in All(p) && !c.kind.Worker?
    requires At(p, events, n).Running? || At(p, events, n).AllMerged?
    ensures c.id in BooksOf(At(p, events, n))
    ensures Follows(c, BooksOf(At(p, events, n))[c.id], Steps(p, events, n, c.id))
  {
    hide StepOrStay, PhaseInv, ValidPlan, Follows, BooksOf, Takes;
    if n > 0 {
      var phase := At(p, events, n - 1);
      RunsKeepTheInvariant(p, events, n - 1);
      if phase.Planning? {
        NoStepsBeforeRelease(p, events, n - 1, c.id);
      } else if phase.Running? || phase.AllMerged? {
        ChildRunsItsMachine(p, events, n - 1, c);
      }
      var steps := Steps(p, events, n - 1, c.id);
      assert steps + [] == steps;
      PhaseFollowsOn(p, phase, events[n - 1], c, steps, At(p, events, n));
    }
  }

  /** Each step of the child's run is an event of the scope's run. */
  lemma {:induction false} StepsHaveEvents(p: Plan, events: seq<Event>, n: nat, id: string, k: nat) returns (m: nat)
    requires n <= |events| && k < |Steps(p, events, n, id)|
    ensures m < n && Stepped(p, events, m, id) && events[m] == PostMergeStep(Steps(p, events, n, id)[k])
  {
    hide PostMergeTransition, At;
    if k < |Steps(p, events, n - 1, id)| {
      m := StepsHaveEvents(p, events, n - 1, id, k);
    } else {
      m := n - 1;
    }
  }

  // ---- what the machine's runs say of a merged scope

  /**
   A sub-TL the all-merged phase confirms finished its own machine, and unless it never had an issue, an event
   the scope accepted for it reported that very issue closed, and it pushed one commit, afresh.
   */
  lemma MergedSubTLIsProven(p: Plan, events: seq<Event>, n: nat, c: Child) returns (m: nat)
    requires ValidPlan(p) && n <= |events| && At(p, events, n).AllMerged? && c in All(p) && c.kind.SubTL?
    ensures c.id in At(p, events, n).confirmed
    ensures var s := At(p, events, n).confirmed[c.id];
            && s == PM.After(PostMerge.FRESH, Steps(p, events, n, c.id))
            && s.phase.Complete? && s.evidence.merge.childId == Some(c.id)
            && (PM.Linked(s) ==>
                  && PM.OneCommit(s.evidence) && PM.PushIsFresh(s.evidence)
                  && m < n && Stepped(p, events, m, c.id)
                  && s.evidence.close.issueId.Some?
                  && Sources.ReportsClosed(events[m].step, s.evidence.close.issueId.value))
  {
    hide At, PhaseInv, ValidPlan, PM.After, PM.OneCommit, PM.PushIsFresh, PM.IssueClosed, Sources.ReportsClosed;
    ChildRunsItsMachine(p, events, n, c);
    MergedChildrenAreProven(p, events, n, c);
    var s := At(p, events, n).confirmed[c.id];
    m := 0;
    if PM.Linked(s) {
      var k := Sources.ClosedHasItsReport(Steps(p, events, n, c.id));
      m := StepsHaveEvents(p, events, n, c.id, k);
    }
  }
}
