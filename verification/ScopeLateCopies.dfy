/** Late copies of post-merge events at the level of the scope: exactly when they change the run. */
module ScopeLateCopies {
  import opened Prelude
  import opened Children
  import opened Scope
  import opened ScopeBarriers
  import opened ScopeRuns
  import opened ScopeTheorems
  import opened ScopeReplay
  import PostMerge
  import PM = PostMergeRuns
  import Replay = PostMergeReplay

  // ---- an active child stays active until it is done

  lemma {:induction false} NothingLeftStays(s: seq<Child>, done: set<string>, more: set<string>)
    requires Without(s, done) == [] && done <= more
    ensures Without(s, more) == []
  {
    if s != [] { NothingLeftStays(s[1..], done, more); }
  }

  /** The first pending stage stays the first while a child of it is left. */
  lemma {:induction false} PendingHeadStays(ordered: seq<Group>, done: set<string>, more: set<string>, c: Child)
    requires Pending(ordered, done) != [] && c in Pending(ordered, done)[0].records
    requires done <= more && c.id !in more
    ensures Pending(ordered, more) != [] && c in Pending(ordered, more)[0].records
  {
    var head := ordered[0].records;
    if Without(head, done) == [] {
      NothingLeftStays(head, done, more);
      PendingHeadStays(ordered[1..], done, more, c);
    } else {
      assert c in Without(head, more);
    }
  }

  lemma FoundActive(p: Plan, r: Run, c: Child)
    requires ValidPlan(p) && Shape(p, r) && c in All(p)
    requires c in r.parallel || (r.groups != [] && c in r.groups[0].records)
    ensures ActiveRecord(r, c.id) == Some(c)
  {
    assert c in r.parallel + GroupAt(r.groups, r.order);
    assert ActiveRecord(r, c.id).Some?;
    ActiveIsPending(p, r, c.id);
    SameRecord(All(p), c, ActiveRecord(r, c.id).value);
  }

  lemma ActiveStays(p: Plan, r: Run, next: Run, c: Child)
    requires ValidPlan(p) && Shape(p, r) && Shape(p, next) && ActiveRecord(r, c.id) == Some(c)
    requires r.completed.Keys <= next.completed.Keys && c.id !in next.completed
    ensures ActiveRecord(next, c.id) == Some(c)
  {
    ActiveIsPending(p, r, c.id);
    if c in r.parallel {
      assert c in next.parallel;
    } else {
      PendingHeadStays(p.ordered, r.completed.Keys, next.completed.Keys, c);
    }
    hide WellFormedPlan, Sorted, ActiveRecord;
    FoundActive(p, next, c);
  }

  // ---- the books of a child that is not done change only by its own events

  /** The books of `id` are as before, or one step of the child's own machine on. */
  ghost predicate OwnStep(r: Run, e: Event, next: Run, id: string) {
    && id in r.post && id in next.post
    && (next.post[id] == r.post[id]
        || (e.PostMergeStep? && PostMerge.Advance(r.post[id], e.step) == Ok(next.post[id])))
  }

  lemma WorkerLeavesBooks(p: Plan, r: Run, x: string, digest: string, id: string)
    requires ValidPlan(p) && Inv(p, r) && id in r.post && CompleteWorker(r, x, digest).Ok?
    requires var o := CompleteWorker(r, x, digest).value; o.Running? && id !in o.run.completed
    ensures var next := CompleteWorker(r, x, digest).value.run; id in next.post && next.post[id] == r.post[id]
  {
    CompleteWorkerKeeps(p, r, x, digest);
    WorkerResultIsFiled(p, r, x, digest);
    hide CompleteWorker, Inv, WellFormedPlan, Sorted, ActiveRecord;
  }

  lemma LeafLeavesBooks(p: Plan, r: Run, x: string, digest: string, id: string)
    requires ValidPlan(p) && Inv(p, r) && id in r.post && CompleteLeaf(r, x, digest).Ok?
    requires var o := CompleteLeaf(r, x, digest).value; o.Running? && id !in o.run.completed
    ensures var next := CompleteLeaf(r, x, digest).value.run; id in next.post && next.post[id] == r.post[id]
  {
    CompleteLeafKeeps(p, r, x, digest);
    LeafResultIsFiled(p, r, x, digest);
    hide CompleteLeaf, Inv, WellFormedPlan, Sorted, ActiveRecord;
  }

  lemma StepLeavesBooks(p: Plan, r: Run, e: PostMerge.Event, id: string)
    requires ValidPlan(p) && Inv(p, r) && id in r.post && PostMergeTransition(r, e).Ok?
    requires var o := PostMergeTransition(r, e).value; o.Running? && id !in o.run.completed
    ensures OwnStep(r, PostMergeStep(e), PostMergeTransition(r, e).value.run, id)
  {
    if !r.post[e.child].phase.Complete? {
      var c := ActiveRecord(r, e.child).value;
      AdvanceLeavesBooks(p, r, c, e, PostMerge.Advance(r.post[e.child], e).value, id);
    }
  }

  lemma AdvanceLeavesBooks(p: Plan, r: Run, c: Child, e: PostMerge.Event, state: PostState, id: string)
    requires ValidPlan(p) && Inv(p, r) && e.child == c.id && ActiveRecord(r, c.id) == Some(c) && !c.kind.Worker?
    requires c.id in r.post && PostMerge.Advance(r.post[c.id], e) == Ok(state) && id in r.post
    requires PostMergeTransition(r, e).Ok?
    requires var o := PostMergeTransition(r, e).value; o.Running? && id !in o.run.completed
    ensures OwnStep(r, PostMergeStep(e), PostMergeTransition(r, e).value.run, id)
  {
    hide PostMergeTransition, Inv, ValidPlan, PostMerge.Advance, ActiveRecord;
    if state.phase.Complete? {
      PostMergeCompletes(p, r, c, e, state);
    } else {
      PostMergeProgresses(p, r, c, e, state, r.(post := r.post[c.id := state]));
    }
  }

  lemma RunningLeavesBooks(p: Plan, r: Run, e: Event, id: string)
    requires ValidPlan(p) && Inv(p, r) && id in r.post && RunningTransition(r, e).Ok?
    requires var o := RunningTransition(r, e).value; o.Running? && id !in o.run.completed
    ensures OwnStep(r, e, RunningTransition(r, e).value.run, id)
  {
    hide Inv, WellFormedPlan, Sorted, CompleteWorker, CompleteLeaf, PostMergeTransition;
    match e
    case ChildTerminal(x, _, digest) =>
      var found := ActiveRecord(r, x);
      if found.Some? && found.value.kind.Worker? && PostMerge.Has(digest) {
        WorkerLeavesBooks(p, r, x, digest.value, id);
      }
    case PostMergeStep(step) => StepLeavesBooks(p, r, step, id);
    case WorkerCompleted(x, result) => WorkerLeavesBooks(p, r, x, result, id);
    case LeafCompleted(x, result) => LeafLeavesBooks(p, r, x, result, id);
    case _ =>
  }

  // ---- what an accepted event leaves in the scope

  /** The child is done, or still active with its accepted event spent. */
  ghost predicate Settled(r: Run, c: Child, e: PostMerge.Event) {
    || c.id in r.completed
    || (ActiveRecord(r, c.id) == Some(c) && c.id in r.post && PM.Reachable(r.post[c.id])
        && Replay.Spent(r.post[c.id], e))
  }

  ghost predicate LateSound(phase: Phase, c: Child, e: PostMerge.Event) {
    !phase.Planning? && (phase.Running? ==> Settled(phase.run, c, e))
  }

  lemma SpentAfterOwnStep(s: PostState, t: PostState, f: PostMerge.Event, e: PostMerge.Event)
    requires PM.Reachable(s) && Replay.Spent(s, e) && PostMerge.Advance(s, f) == Ok(t)
    ensures PM.Reachable(t) && Replay.Spent(t, e)
  {
    PM.StepKeeps(s, f);
    Replay.StepKeepsSpent(s, f, e);
    hide PM.Reachable, Replay.Spent, PostMerge.Advance;
  }

  /** The next running value keeps what is done, and the invariant. */
  lemma RunningNext(p: Plan, r: Run, f: Event)
    requires ValidPlan(p) && Inv(p, r) && RunningTransition(r, f).Ok?
    ensures var o := RunningTransition(r, f).value;
            && !o.Planning?
            && (o.Running? ==> Inv(p, o.run) && r.completed.Keys <= o.run.completed.Keys)
  {
    hide Inv, RunningTransition, ActiveRecord, WellFormedPlan, Sorted;
    RunningKeeps(p, r, f);
  }

  lemma SettledStays(p: Plan, r: Run, f: Event, c: Child, e: PostMerge.Event)
    requires ValidPlan(p) && Inv(p, r) && Settled(r, c, e) && RunningTransition(r, f).Ok?
    requires RunningTransition(r, f).value.Running?
    ensures Settled(RunningTransition(r, f).value.run, c, e)
  {
    hide Inv, RunningTransition, ActiveRecord, ValidPlan, Replay.Spent, PM.Reachable, PostMerge.Advance, Shape;
    RunningNext(p, r, f);
    var next := RunningTransition(r, f).value.run;
    if c.id !in next.completed {
      RunningLeavesBooks(p, r, f, c.id);
      InvShapes(p, r);
      InvShapes(p, next);
      ActiveStays(p, r, next, c);
      if next.post[c.id] != r.post[c.id] { SpentAfterOwnStep(r.post[c.id], next.post[c.id], f.step, e); }
    }
  }

  lemma InvShapes(p: Plan, r: Run)
    requires Inv(p, r)
    ensures Shape(p, r)
  {
  }

  lemma LateSoundStep(p: Plan, phase: Phase, f: Event, c: Child, e: PostMerge.Event)
    requires ValidPlan(p) && PhaseInv(p, phase) && LateSound(phase, c, e)
    ensures LateSound(StepOrStay(phase, f), c, e)
  {
    hide Inv, WellFormedPlan, Sorted, RunningTransition, AllBooked, Settled;
    if phase.Running? && RunningTransition(phase.run, f).Ok? {
      RunningNext(p, phase.run, f);
      if RunningTransition(phase.run, f).value.Running? { SettledStays(p, phase.run, f, c, e); }
    }
  }

  lemma {:induction false} LateSoundLasts(p: Plan, events: seq<Event>, m: nat, n: nat, c: Child, e: PostMerge.Event)
    requires ValidPlan(p) && m <= n <= |events| && LateSound(At(p, events, m), c, e)
    ensures LateSound(At(p, events, n), c, e)
  {
    hide *;
    if m < n {
      LateSoundLasts(p, events, m, n - 1, c, e);
      RunsKeepTheInvariant(p, events, n - 1);
      LateSoundStep(p, At(p, events, n - 1), events[n - 1], c, e);
      NextPhase(p, events, n - 1);
    }
  }

  // ---- the accepted event itself

  lemma DoneIffFinished(p: Plan, r: Run, id: string)
    requires ValidPlan(p) && Inv(p, r) && id in r.post
    ensures r.post[id].phase.Complete? ==> id in r.completed
    ensures id in r.completed ==> r.post[id].phase.Complete? || r.post[id].phase.NotRequired?
  {
    var c :| c in All(p) && c.id == id;
    assert Booked(c, id in r.completed, r.post[id]);
  }

  /** An accepted post-merge event completes its child, or leaves it active with the event spent. */
  lemma AcceptedSettles(p: Plan, r: Run, e: PostMerge.Event) returns (c: Child)
    requires ValidPlan(p) && Inv(p, r) && PostMergeTransition(r, e).Ok?
    ensures c.id == e.child && LateSound(PostMergeTransition(r, e).value, c, e)
  {
    DoneIffFinished(p, r, e.child);
    if r.post[e.child].phase.Complete? {
      c := r.completed[e.child];
      assert PostMergeTransition(r, e) == Ok(Running(r));
    } else {
      c := ActiveRecord(r, e.child).value;
      ActiveSettles(p, r, c, e, PostMerge.Advance(r.post[e.child], e).value);
    }
  }

  lemma TrackedIsReachable(p: Plan, r: Run, c: Child)
    requires ValidPlan(p) && Inv(p, r) && c in All(p) && c.id !in r.completed && !c.kind.Worker?
    ensures c.id in r.post && PM.Reachable(r.post[c.id])
  {
    assert c.id in Ids(All(p));
    assert Booked(c, false, r.post[c.id]);
    hide PM.Reachable;
  }

  lemma CompletionSettlesChild(p: Plan, r: Run, c: Child, e: PostMerge.Event, state: PostState)
    requires ValidPlan(p) && Inv(p, r) && e.child == c.id && ActiveRecord(r, c.id) == Some(c) && !c.kind.Worker?
    requires c.id in r.post && PostMerge.Advance(r.post[c.id], e) == Ok(state) && state.phase.Complete?
    ensures PostMergeTransition(r, e).Ok? && LateSound(PostMergeTransition(r, e).value, c, e)
  {
    hide PostMergeTransition, Inv, ValidPlan, PostMerge.Advance, ActiveRecord, PM.Reachable, Replay.Spent;
    PostMergeCompletes(p, r, c, e, state);
  }

  lemma ProgressSettlesChild(p: Plan, r: Run, c: Child, e: PostMerge.Event, state: PostState)
    requires ValidPlan(p) && Inv(p, r) && e.child == c.id && ActiveRecord(r, c.id) == Some(c) && !c.kind.Worker?
    requires c.id in r.post && PostMerge.Advance(r.post[c.id], e) == Ok(state) && !state.phase.Complete?
    requires PM.Reachable(state) && Replay.Spent(state, e)
    ensures PostMergeTransition(r, e).Ok? && LateSound(PostMergeTransition(r, e).value, c, e)
  {
    hide PostMergeTransition, Inv, ValidPlan, PostMerge.Advance, ActiveRecord, PM.Reachable, Replay.Spent;
    var next := r.(post := r.post[c.id := state]);
    SameActive(r, next, c.id);
    PostMergeProgresses(p, r, c, e, state, next);
  }

  lemma ActiveSettles(p: Plan, r: Run, c: Child, e: PostMerge.Event, state: PostState)
    requires ValidPlan(p) && Inv(p, r) && e.child == c.id && ActiveRecord(r, c.id) == Some(c) && !c.kind.Worker?
    requires c.id in r.post && PostMerge.Advance(r.post[c.id], e) == Ok(state)
    ensures PostMergeTransition(r, e).Ok? && LateSound(PostMergeTransition(r, e).value, c, e)
  {
    hide *;
    PlaceOfActive(p, r, c);
    TrackedIsReachable(p, r, c);
    AcceptedBooks(r.post[c.id], e);
    if state.phase.Complete? {
      CompletionSettlesChild(p, r, c, e, state);
    } else {
      ProgressSettlesChild(p, r, c, e, state);
    }
  }

  lemma PlaceOfActive(p: Plan, r: Run, c: Child)
    requires ValidPlan(p) && Inv(p, r) && ActiveRecord(r, c.id) == Some(c)
    ensures c in All(p) && c.id !in r.completed
  {
    ActiveIsPending(p, r, c.id);
  }

  lemma AcceptedBooks(s: PostState, e: PostMerge.Event)
    requires PM.Reachable(s) && PostMerge.Advance(s, e).Ok?
    ensures PM.Reachable(PostMerge.Advance(s, e).value) && Replay.Spent(PostMerge.Advance(s, e).value, e)
  {
    PM.StepKeeps(s, e);
    Replay.AcceptedIsSpent(s, e);
    hide PM.Reachable, Replay.Spent, PostMerge.Advance;
  }

  lemma SameActive(r: Run, next: Run, id: string)
    requires next.parallel == r.parallel && next.groups == r.groups && next.order == r.order
    ensures ActiveRecord(next, id) == ActiveRecord(r, id)
  {
  }

  // ---- the copy

  lemma DoneChildIsIdle(p: Plan, r: Run, e: PostMerge.Event)
    requires ValidPlan(p) && Inv(p, r) && e.child in r.completed
    ensures PostMergeTransition(r, e) == Ok(Running(r)) || PostMergeTransition(r, e) == Err(Illegal)
    ensures e.child in r.post && !Replay.Reopened(r.post[e.child], e)
  {
    DoneIsBooked(p, r, e.child);
    DoneIffFinished(p, r, e.child);
    DoneIsInactive(p, Running(r), e.child);
    hide Inv, WellFormedPlan, Sorted, PostMerge.Advance, ActiveRecord;
  }

  lemma ReopenedDoesNotComplete(s: PostState, e: PostMerge.Event)
    requires Replay.Reopened(s, e) && PostMerge.Advance(s, e).Ok?
    ensures !PostMerge.Advance(s, e).value.phase.Complete?
  {
    hide PostMerge.Advance;
    if PostMerge.Advance(s, e).value.phase.Complete? { PM.OnlyTwoEventsComplete(s, e); }
  }

  lemma AcceptedProgresses(p: Plan, r: Run, c: Child, e: PostMerge.Event)
    requires ValidPlan(p) && Inv(p, r) && e.child == c.id && ActiveRecord(r, c.id) == Some(c) && !c.kind.Worker?
    requires c.id in r.post && PostMerge.Advance(r.post[c.id], e).Ok?
    requires !PostMerge.Advance(r.post[c.id], e).value.phase.Complete?
    ensures var state := PostMerge.Advance(r.post[c.id], e).value;
            StepOrStay(Running(r), PostMergeStep(e)) == Running(r.(post := r.post[c.id := state]))
  {
    hide Inv, ValidPlan, PostMerge.Advance, ActiveRecord, PostMergeTransition;
    var state := PostMerge.Advance(r.post[c.id], e).value;
    PostMergeProgresses(p, r, c, e, state, r.(post := r.post[c.id := state]));
  }

  lemma RefusedStays(r: Run, e: PostMerge.Event)
    requires e.child in r.post && !PostMerge.Advance(r.post[e.child], e).Ok?
    ensures StepOrStay(Running(r), PostMergeStep(e)) == Running(r)
  {
    hide PostMerge.Advance, ActiveRecord, MakeRunning, RemoveActive;
  }

  lemma PostUpdated(r: Run, id: string, state: PostState)
    requires id in r.post
    ensures Running(r.(post := r.post[id := state])) == Running(r) <==> state == r.post[id]
  {
    assert r.post[id := state][id] == state;
    if state == r.post[id] { assert r.post[id := state] == r.post; }
  }

  lemma CopyDoesNotComplete(u: PostState, e: PostMerge.Event)
    requires PM.Reachable(u) && Replay.Spent(u, e) && !u.phase.Complete? && PostMerge.Advance(u, e).Ok?
    ensures !PostMerge.Advance(u, e).value.phase.Complete?
    ensures PostMerge.Advance(u, e).value == PM.StepOrStay(u, e)
  {
    hide PostMerge.Advance, PM.Reachable, Replay.Spent;
    Replay.SpentChangesIff(u, e);
    if Replay.Reopened(u, e) { ReopenedDoesNotComplete(u, e); }
  }

  lemma ActiveChildChangesIff(p: Plan, r: Run, c: Child, e: PostMerge.Event)
    requires ValidPlan(p) && Inv(p, r) && e.child == c.id && c.id !in r.completed && Settled(r, c, e) && !c.kind.Worker?
    ensures StepOrStay(Running(r), PostMergeStep(e)) != Running(r) <==> Replay.Reopened(r.post[c.id], e)
  {
    var u := r.post[c.id];
    ChildNotFinished(p, r, c);
    hide Inv, ValidPlan, PM.Reachable, Replay.Spent, Replay.Reopened, PostMerge.Advance, ActiveRecord, StepOrStay;
    Replay.SpentChangesIff(u, e);
    if PostMerge.Advance(u, e).Ok? {
      CopyDoesNotComplete(u, e);
      AcceptedProgresses(p, r, c, e);
      PostUpdated(r, c.id, PostMerge.Advance(u, e).value);
    } else {
      RefusedStays(r, e);
    }
  }

  lemma ChildNotFinished(p: Plan, r: Run, c: Child)
    requires ValidPlan(p) && Inv(p, r) && ActiveRecord(r, c.id) == Some(c)
    ensures c.id in r.post && !r.post[c.id].phase.Complete?
  {
    ActiveIsPending(p, r, c.id);
    ActiveIsBooked(p, r, c.id);
    DoneIffFinished(p, r, c.id);
  }

  lemma PastRunningRefuses(phase: Phase, e: PostMerge.Event)
    requires !phase.Running?
    ensures StepOrStay(phase, PostMergeStep(e)) == phase
  {
  }

  /** In a running scope a late copy changes something exactly when the child's own state is reopened for it. */
  lemma CopyChangesIff(p: Plan, phase: Phase, c: Child, e: PostMerge.Event)
    requires ValidPlan(p) && PhaseInv(p, phase) && LateSound(phase, c, e) && e.child == c.id && phase.Running?
    ensures c.id in phase.run.post
    ensures StepOrStay(phase, PostMergeStep(e)) != phase <==> Replay.Reopened(phase.run.post[c.id], e)
  {
    hide Inv, WellFormedPlan, Sorted, PM.Reachable, Replay.Spent, Replay.Reopened, PostMergeTransition, ActiveRecord;
    if c.id in phase.run.completed {
      DoneChildIsIdle(p, phase.run, e);
    } else if c.kind.Worker? {
      ActiveWorkerIsIdle(p, phase.run, c, e);
    } else {
      ActiveChildChangesIff(p, phase.run, c, e);
    }
  }

  lemma ActiveWorkerIsIdle(p: Plan, r: Run, c: Child, e: PostMerge.Event)
    requires ValidPlan(p) && Inv(p, r) && e.child == c.id && ActiveRecord(r, c.id) == Some(c) && c.kind.Worker?
    ensures c.id in r.post && !Replay.Reopened(r.post[c.id], e)
    ensures PostMergeTransition(r, e) == Err(Illegal)
  {
    ChildNotFinished(p, r, c);
    ActiveIsPending(p, r, c.id);
    assert Booked(c, false, r.post[c.id]);
  }

  /**
   A post-merge event accepted by a running scope and delivered again at any later point changes the scope if
   and only if the scope still runs and the child's own state is reopened for that event.
   */
  lemma LateCopyChangesScopeIff(p: Plan, events: seq<Event>, m: nat, n: nat)
    requires ValidPlan(p) && m < n <= |events| && events[m].PostMergeStep?
    requires At(p, events, m).Running? && Transition(At(p, events, m), events[m]).Ok?
    ensures var e := events[m].step;
            var phase := At(p, events, n);
            StepOrStay(phase, events[m]) != phase <==>
              phase.Running? && e.child in phase.run.post && Replay.Reopened(phase.run.post[e.child], e)
  {
    hide *;
    var e := events[m].step;
    var phase := At(p, events, n);
    RunsKeepTheInvariant(p, events, m);
    RunsKeepTheInvariant(p, events, n);
    NextPhase(p, events, m);
    var c := ScopeAcceptedSettles(p, At(p, events, m), events[m]);
    LateSoundLasts(p, events, m + 1, n, c, e);
    if phase.Running? {
      CopyChangesIff(p, phase, c, e);
    } else {
      PastRunningRefuses(phase, e);
    }
  }

  lemma ScopeAcceptedSettles(p: Plan, phase: Phase, e: Event) returns (c: Child)
    requires ValidPlan(p) && PhaseInv(p, phase) && phase.Running? && e.PostMergeStep? && Transition(phase, e).Ok?
    ensures c.id == e.step.child && LateSound(StepOrStay(phase, e), c, e.step)
  {
    hide Inv, WellFormedPlan, Sorted, PostMergeTransition, LateSound;
    c := AcceptedSettles(p, phase.run, e.step);
  }
}
