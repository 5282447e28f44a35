/** Replay of scope events, at once and at any later point of a run. */
module ScopeReplay {
  import opened Prelude
  import opened Children
  import opened Scope
  import opened ScopeBarriers
  import opened ScopeRuns
  import opened ScopeTheorems
  import PostMerge
  import PM = PostMergeRuns

  // ---- redelivery

  /** The event that completed a child through its post-merge machine leaves the scope unchanged when replayed. */
  lemma CompletionReplaysAtOnce(p: Plan, r: Run, c: Child, e: PostMerge.Event, state: PostState)
    requires ValidPlan(p) && Inv(p, r) && e.child == c.id && ActiveRecord(r, c.id) == Some(c) && !c.kind.Worker?
    requires c.id in r.post && PostMerge.Advance(r.post[c.id], e) == Ok(state) && state.phase.Complete?
    ensures var o := PostMergeTransition(r, e);
            o.Ok? && (o.value.Running? ==> PostMergeTransition(o.value.run, e) == Ok(o.value))
  {
    hide MakeRunning, RemoveActive, Inv, WellFormedPlan, Sorted, PostMerge.Dispatch;
    PostMergeCompletes(p, r, c, e, state);
    ChildAdvances(p, r, c, e);
    PM.OnlyTwoEventsComplete(r.post[c.id], e);
    PM.RedeliveryIsSafe(r.post[c.id], e);
  }

  lemma ProgressReplay(p: Plan, r: Run, c: Child, e: PostMerge.Event, state: PostState, next: Run)
    requires ValidPlan(p) && Inv(p, r) && e.child == c.id && ActiveRecord(r, c.id) == Some(c) && !c.kind.Worker?
    requires c.id in r.post && PostMerge.Advance(r.post[c.id], e) == Ok(state) && !state.phase.Complete?
    requires next == r.(post := r.post[c.id := state])
    ensures PostMergeTransition(r, e) == Ok(Running(next))
    ensures PostMergeTransition(next, e) == Ok(Running(next)) || PostMergeTransition(next, e) == Err(Illegal)
  {
    PostMergeProgresses(p, r, c, e, state, next);
    PM.RedeliveryIsSafe(r.post[c.id], e);
    assert next.post[c.id] == state && ActiveRecord(next, c.id) == Some(c);
    if PostMerge.Advance(state, e) == Ok(state) {
      assert next == next.(post := next.post[c.id := state]);
      PostMergeProgresses(p, next, c, e, state, next);
    }
  }

  lemma PostMergeReplay(p: Plan, r: Run, e: PostMerge.Event)
    requires ValidPlan(p) && Inv(p, r) && PostMergeTransition(r, e).Ok?
    ensures var next := PostMergeTransition(r, e).value;
            next.Running? ==>
              PostMergeTransition(next.run, e) == Ok(next) || PostMergeTransition(next.run, e) == Err(Illegal)
  {
    if !r.post[e.child].phase.Complete? {
      var c := ActiveRecord(r, e.child).value;
      var state := PostMerge.Advance(r.post[e.child], e).value;
      if state.phase.Complete? { CompletionReplaysAtOnce(p, r, c, e, state); }
      else { ProgressReplay(p, r, c, e, state, r.(post := r.post[c.id := state])); }
    }
  }

  /** A child that is done is no longer active. */
  lemma DoneIsInactive(p: Plan, phase: Phase, id: string)
    requires ValidPlan(p) && PhaseInv(p, phase) && id in CompletedIn(phase)
    ensures phase.Running? ==> ActiveRecord(phase.run, id).None?
  {
    if phase.Running? && ActiveRecord(phase.run, id).Some? { ActiveIsPending(p, phase.run, id); }
  }

  lemma ResultReplay(p: Plan, r: Run, e: Event)
    requires ValidPlan(p) && Inv(p, r) && !e.PostMergeStep? && RunningTransition(r, e).Ok?
    ensures var next := RunningTransition(r, e).value;
            next == Running(r) || (next.Running? ==> RunningTransition(next.run, e) == Err(Illegal))
  {
    match e
    case ChildTerminal(id, _, digest) =>
      if digest.Some? && CompleteWorker(r, id, digest.value).Ok? {
        CompleteWorkerKeeps(p, r, id, digest.value);
        DoneIsInactive(p, CompleteWorker(r, id, digest.value).value, id);
      }
    case WorkerCompleted(id, result) =>
      CompleteWorkerKeeps(p, r, id, result);
      DoneIsInactive(p, CompleteWorker(r, id, result).value, id);
    case LeafCompleted(id, result) =>
      CompleteLeafKeeps(p, r, id, result);
      DoneIsInactive(p, CompleteLeaf(r, id, result).value, id);
    case _ =>
  }

  lemma OnlyRunningEvents(r: Run, e: Event)
    requires e.FinalizationRequested?
    ensures RunningTransition(r, e) == Err(Illegal)
  {
  }

  lemma HeldOrAdvanced(p: Plan, r: Run, id: string, o: Outcome)
    requires Held(p, r, o) || Advanced(p, r, id, o)
    ensures o.Ok? && (o.value.Running? || o.value.AllMerged?)
  {
    hide PhaseInv, CompletedIn;
  }

  /** A running scope goes on running or is merged; it does not finalize. */
  lemma RunningGoesOn(p: Plan, r: Run, e: Event)
    requires ValidPlan(p) && Inv(p, r) && RunningTransition(r, e).Ok?
    ensures RunningTransition(r, e).value.Running? || RunningTransition(r, e).value.AllMerged?
    ensures !e.FinalizationRequested?
  {
    hide *;
    RunningKeeps(p, r, e);
    HeldOrAdvanced(p, r, Subject(e), RunningTransition(r, e));
    if e.FinalizationRequested? { OnlyRunningEvents(r, e); }
  }

  lemma StepReplay(p: Plan, r: Run, e: Event)
    requires ValidPlan(p) && Inv(p, r) && e.PostMergeStep? && RunningTransition(r, e).Ok?
    ensures var next := RunningTransition(r, e).value;
            next.Running? ==>
              RunningTransition(next.run, e) == Ok(next) || RunningTransition(next.run, e) == Err(Illegal)
  {
    PostMergeReplay(p, r, e.step);
    hide PostMergeTransition, Inv, WellFormedPlan, Sorted;
  }

  lemma RunningReplay(p: Plan, r: Run, e: Event)
    requires ValidPlan(p) && Inv(p, r) && RunningTransition(r, e).Ok?
    ensures var next := RunningTransition(r, e).value;
            && (next.Running? || next.AllMerged?) && !e.FinalizationRequested?
            && (next.Running? ==>
                  RunningTransition(next.run, e) == Ok(next) || RunningTransition(next.run, e) == Err(Illegal))
  {
    hide *;
    RunningGoesOn(p, r, e);
    if e.PostMergeStep? { StepReplay(p, r, e); } else { ResultReplay(p, r, e); }
  }

  lemma ReleasedOnce(r: Run, e: Event)
    requires e.StageReleased?
    ensures RunningTransition(r, e) == Err(Illegal)
  {
  }

  /** Delivering an accepted scope event again changes nothing: it is absorbed or refused by a guard. */
  lemma RedeliveryIsSafe(p: Plan, phase: Phase, e: Event)
    requires ValidPlan(p) && PhaseInv(p, phase) && Transition(phase, e).Ok?
    ensures var next := Transition(phase, e).value;
            Transition(next, e) == Ok(next) || Transition(next, e) == Err(Illegal)
  {
    hide Inv, AllBooked, WellFormedPlan, Sorted, RunningTransition, ReleaseFirstStage, Start;
    if phase.Running? && !e.FailureRecorded? && !e.ParkRequested? {
      RunningReplay(p, phase.run, e);
    } else if phase.Planning? && e.StageReleased? {
      ReleaseKeeps(p, e.order, e.childIds);
      ReleasedOnce(Start(p), e);
    }
  }

  // ---- late redelivery

  /** The child is done for good, and its books are these. */
  ghost predicate Survives(phase: Phase, id: string, state: PostState) {
    && !phase.Planning?
    && (phase.Running? ==> id in phase.run.completed && id in phase.run.post && phase.run.post[id] == state)
  }

  lemma WorkerCompletionSpares(p: Plan, r: Run, id: string, digest: string, other: string)
    requires ValidPlan(p) && Inv(p, r) && CompleteWorker(r, id, digest).Ok? && other in r.completed && other in r.post
    ensures Survives(CompleteWorker(r, id, digest).value, other, r.post[other])
  {
    ActiveIsPending(p, r, id);
    CompleteWorkerKeeps(p, r, id, digest);
    WorkerResultIsFiled(p, r, id, digest);
    hide CompleteWorker, Inv, WellFormedPlan, Sorted, ActiveRecord;
  }

  lemma LeafCompletionSpares(p: Plan, r: Run, id: string, digest: string, other: string)
    requires ValidPlan(p) && Inv(p, r) && CompleteLeaf(r, id, digest).Ok? && other in r.completed && other in r.post
    ensures Survives(CompleteLeaf(r, id, digest).value, other, r.post[other])
  {
    ActiveIsPending(p, r, id);
    CompleteLeafKeeps(p, r, id, digest);
    LeafResultIsFiled(p, r, id, digest);
    hide CompleteLeaf, Inv, WellFormedPlan, Sorted, ActiveRecord;
  }

  lemma PostMergeSpares(p: Plan, r: Run, e: PostMerge.Event, other: string)
    requires ValidPlan(p) && Inv(p, r) && PostMergeTransition(r, e).Ok? && other in r.completed && other in r.post
    ensures Survives(PostMergeTransition(r, e).value, other, r.post[other])
  {
    if !r.post[e.child].phase.Complete? {
      var c := ActiveRecord(r, e.child).value;
      ActiveIsPending(p, r, e.child);
      AdvanceSpares(p, r, c, e, PostMerge.Advance(r.post[e.child], e).value, other);
    }
  }

  lemma AdvanceSpares(p: Plan, r: Run, c: Child, e: PostMerge.Event, state: PostState, other: string)
    requires ValidPlan(p) && Inv(p, r) && e.child == c.id && ActiveRecord(r, c.id) == Some(c) && !c.kind.Worker?
    requires c.id in r.post && PostMerge.Advance(r.post[c.id], e) == Ok(state)
    requires other in r.completed && other in r.post && other != c.id
    ensures PostMergeTransition(r, e).Ok? && Survives(PostMergeTransition(r, e).value, other, r.post[other])
  {
    hide PostMergeTransition, Inv, ValidPlan, PostMerge.Advance;
    if state.phase.Complete? {
      PostMergeCompletes(p, r, c, e, state);
    } else {
      PostMergeProgresses(p, r, c, e, state, r.(post := r.post[c.id := state]));
    }
  }

  /** No accepted event of a running scope touches the books of a child that is done. */
  lemma RunningSpares(p: Plan, r: Run, e: Event, other: string)
    requires ValidPlan(p) && Inv(p, r) && RunningTransition(r, e).Ok? && other in r.completed && other in r.post
    ensures Survives(RunningTransition(r, e).value, other, r.post[other])
  {
    hide Inv, WellFormedPlan, Sorted, CompleteWorker, CompleteLeaf, PostMergeTransition;
    match e
    case ChildTerminal(id, _, digest) =>
      if digest.Some? && CompleteWorker(r, id, digest.value).Ok? {
        WorkerCompletionSpares(p, r, id, digest.value, other);
      }
    case PostMergeStep(step) => PostMergeSpares(p, r, step, other);
    case WorkerCompleted(id, result) => WorkerCompletionSpares(p, r, id, result, other);
    case LeafCompleted(id, result) => LeafCompletionSpares(p, r, id, result, other);
    case _ =>
  }

  lemma SurvivesStep(p: Plan, phase: Phase, e: Event, id: string, state: PostState)
    requires ValidPlan(p) && PhaseInv(p, phase) && Survives(phase, id, state)
    ensures Survives(StepOrStay(phase, e), id, state)
  {
    hide Inv, WellFormedPlan, Sorted, RunningTransition, AllBooked;
    if phase.Running? && RunningTransition(phase.run, e).Ok? { RunningSpares(p, phase.run, e, id); }
  }

  lemma {:induction false} BooksSurvive(p: Plan, events: seq<Event>, m: nat, n: nat, id: string, state: PostState)
    requires ValidPlan(p) && m <= n <= |events| && Survives(At(p, events, m), id, state)
    ensures Survives(At(p, events, n), id, state)
  {
    hide Transition, Survives, PhaseInv, ValidPlan;
    if m < n {
      BooksSurvive(p, events, m, n - 1, id, state);
      RunsKeepTheInvariant(p, events, n - 1);
      SurvivesStep(p, At(p, events, n - 1), events[n - 1], id, state);
    }
  }

  /** The state a completing post-merge event leaves absorbs that event. */
  lemma CompletionSettles(p: Plan, r: Run, e: PostMerge.Event)
    requires ValidPlan(p) && Inv(p, r) && PostMergeTransition(r, e).Ok?
    requires CompletedIn(PostMergeTransition(r, e).value) != r.completed.Keys
    ensures e.child in r.post && PostMerge.Advance(r.post[e.child], e).Ok?
    ensures var state := PostMerge.Advance(r.post[e.child], e).value;
            && state.phase.Complete? && PostMerge.Advance(state, e) == Ok(state)
            && Survives(PostMergeTransition(r, e).value, e.child, state)
  {
    var c := ActiveRecord(r, e.child).value;
    var state := PostMerge.Advance(r.post[e.child], e).value;
    if !state.phase.Complete? {
      PostMergeProgresses(p, r, c, e, state, r.(post := r.post[c.id := state]));
      assert false;
    }
    SettledByCompletion(p, r, c, e, state);
  }

  lemma SettledByCompletion(p: Plan, r: Run, c: Child, e: PostMerge.Event, state: PostState)
    requires ValidPlan(p) && Inv(p, r) && e.child == c.id && ActiveRecord(r, c.id) == Some(c) && !c.kind.Worker?
    requires c.id in r.post && PostMerge.Advance(r.post[c.id], e) == Ok(state) && state.phase.Complete?
    ensures PostMerge.Advance(state, e) == Ok(state)
    ensures PostMergeTransition(r, e).Ok? && Survives(PostMergeTransition(r, e).value, c.id, state)
  {
    PostMergeCompletes(p, r, c, e, state);
    ChildAdvances(p, r, c, e);
    PM.OnlyTwoEventsComplete(r.post[c.id], e);
    PM.RedeliveryIsSafe(r.post[c.id], e);
    hide PostMergeTransition, Inv, WellFormedPlan, Sorted, PostMerge.Dispatch;
  }

  /** A phase in which a child is done absorbs that child's completing post-merge event, or is past running. */
  lemma SettledAbsorbs(phase: Phase, e: Event, state: PostState)
    requires e.PostMergeStep? && Survives(phase, e.step.child, state)
    requires state.phase.Complete? && PostMerge.Advance(state, e.step) == Ok(state)
    ensures Transition(phase, e) == if phase.Running? then Ok(phase) else Err(Illegal)
  {
    hide PostMerge.Advance;
  }

  predicate IsResult(e: Event) {
    e.WorkerCompleted? || e.LeafCompleted? || e.ChildTerminal?
  }

  lemma InactiveRefuses(r: Run, e: Event)
    requires IsResult(e) && ActiveRecord(r, Subject(e)).None?
    ensures RunningTransition(r, e) == Err(Illegal)
  {
    hide ActiveRecord, RemoveActive;
  }

  lemma PastRunningRefusesResults(phase: Phase, e: Event)
    requires IsResult(e) && !phase.Running?
    ensures Transition(phase, e) == Err(Illegal)
  {
    hide RunningTransition;
  }

  lemma RunningResult(r: Run, e: Event)
    requires IsResult(e)
    ensures Transition(Running(r), e) == RunningTransition(r, e)
  {
    hide RunningTransition;
  }

  /** And refuses its completing result. */
  lemma SettledRefuses(p: Plan, phase: Phase, e: Event, state: PostState)
    requires ValidPlan(p) && PhaseInv(p, phase) && IsResult(e) && Survives(phase, Subject(e), state)
    ensures Transition(phase, e) == Err(Illegal)
  {
    hide Inv, WellFormedPlan, Sorted, AllBooked, ActiveRecord, Transition, RunningTransition;
    if phase.Running? {
      DoneIsInactive(p, phase, Subject(e));
      InactiveRefuses(phase.run, e);
      RunningResult(phase.run, e);
    } else {
      PastRunningRefusesResults(phase, e);
    }
  }

  /**
   The event that completed a child, delivered again at any later point of the run, leaves the scope
   unchanged: a running scope absorbs the child's own post-merge event, and everything else is refused.
   */
  lemma CompletionReplay(p: Plan, events: seq<Event>, m: nat, n: nat)
    requires ValidPlan(p) && Completes(p, events, m) && m < n <= |events|
    ensures Transition(At(p, events, n), events[m])
         == if At(p, events, n).Running? && events[m].PostMergeStep? then Ok(At(p, events, n)) else Err(Illegal)
  {
    hide *;
    CompletesMeans(p, events, m);
    if events[m].PostMergeStep? {
      LateStep(p, events, m, n);
    } else {
      LateResult(p, events, m, n);
    }
  }

  /** What a completing post-merge event leaves behind, seen through the phases before and after it. */
  lemma StepSettles(p: Plan, phase: Phase, e: Event, next: Phase) returns (state: PostState)
    requires ValidPlan(p) && PhaseInv(p, phase) && phase.Running?
    requires e.PostMergeStep? && next == StepOrStay(phase, e) && CompletedIn(next) != CompletedIn(phase)
    ensures state.phase.Complete? && PostMerge.Advance(state, e.step) == Ok(state)
    ensures Survives(next, e.step.child, state)
  {
    hide Inv, PostMergeTransition, WellFormedPlan, Sorted, Survives, PostMerge.Advance;
    CompletionSettles(p, phase.run, e.step);
    state := PostMerge.Advance(phase.run.post[e.step.child], e.step).value;
  }

  lemma LateStep(p: Plan, events: seq<Event>, m: nat, n: nat)
    requires ValidPlan(p) && m < n <= |events| && events[m].PostMergeStep?
    requires At(p, events, m).Running? && CompletedIn(At(p, events, m + 1)) != CompletedIn(At(p, events, m))
    ensures Transition(At(p, events, n), events[m])
         == if At(p, events, n).Running? then Ok(At(p, events, n)) else Err(Illegal)
  {
    hide *;
    NextPhase(p, events, m);
    RunsKeepTheInvariant(p, events, m);
    var state := StepSettles(p, At(p, events, m), events[m], At(p, events, m + 1));
    BooksSurvive(p, events, m + 1, n, events[m].step.child, state);
    SettledAbsorbs(At(p, events, n), events[m], state);
  }

  lemma NextPhase(p: Plan, events: seq<Event>, m: nat)
    requires m < |events|
    ensures At(p, events, m + 1) == StepOrStay(At(p, events, m), events[m])
  {
  }

  lemma CompletionIsAResult(r: Run, e: Event)
    requires var next := StepOrStay(Running(r), e); Counting(next) && CompletedIn(next) != r.completed.Keys
    ensures e.PostMergeStep? || IsResult(e)
  {
    hide CompleteWorker, CompleteLeaf, PostMergeTransition;
  }

  lemma DoneIsBooked(p: Plan, r: Run, id: string)
    requires Inv(p, r) && id in r.completed
    ensures id in r.post
  {
    CompletedAreDeclared(p, r);
  }

  /** A completion that is no post-merge event is a result, and leaves the child on the books. */
  lemma ResultSettles(p: Plan, phase: Phase, e: Event, next: Phase) returns (state: PostState)
    requires PhaseInv(p, next) && phase.Running? && next == StepOrStay(phase, e) && !e.PostMergeStep?
    requires Counting(next) && CompletedIn(next) == CompletedIn(phase) + {Subject(e)} != CompletedIn(phase)
    ensures IsResult(e) && Survives(next, Subject(e), state)
  {
    CompletionIsAResult(phase.run, e);
    assert !next.Planning?;
    hide Inv, StepOrStay, AllBooked;
    state := PostMerge.State(PostMerge.NotStarted, PostMerge.NOTHING);
    if next.Running? {
      DoneIsBooked(p, next.run, Subject(e));
      state := next.run.post[Subject(e)];
    }
  }

  lemma CompletesMeans(p: Plan, events: seq<Event>, m: nat)
    requires ValidPlan(p) && Completes(p, events, m)
    ensures m < |events| && Counting(At(p, events, m + 1)) && At(p, events, m).Running?
    ensures CompletedIn(At(p, events, m + 1))
         == CompletedIn(At(p, events, m)) + {Subject(events[m])} != CompletedIn(At(p, events, m))
  {
    CompletionIsNew(p, events, m);
  }

  lemma LateResult(p: Plan, events: seq<Event>, m: nat, n: nat)
    requires ValidPlan(p) && m < n <= |events| && !events[m].PostMergeStep? && Completes(p, events, m)
    ensures Transition(At(p, events, n), events[m]) == Err(Illegal)
  {
    hide *;
    CompletesMeans(p, events, m);
    NextPhase(p, events, m);
    RunsKeepTheInvariant(p, events, m + 1);
    RunsKeepTheInvariant(p, events, n);
    var state := ResultSettles(p, At(p, events, m), events[m], At(p, events, m + 1));
    BooksSurvive(p, events, m + 1, n, Subject(events[m]), state);
    SettledRefuses(p, At(p, events, n), events[m], state);
  }
}
