/** What completes a child of a scope, under which key its result is filed, and what its dispatch is bound to. */
module ScopeCompletions {
  import opened Prelude
  import opened Children
  import opened Scope
  import opened ScopeBarriers
  import opened ScopeRuns
  import opened ScopeTheorems
  import opened ScopeReplay
  import opened ScopeLateCopies
  import PostMerge
  import PM = PostMergeRuns

  // ---- terminal reports

  lemma TerminalIsObserved(r: Run, id: string, outcome: string, digest: Option<string>)
    ensures Transition(Running(r), ChildTerminal(id, outcome, digest)) == TerminalObserved(r, id, outcome, digest)
  {
    hide TerminalObserved;
  }

  /** A successful report completes a worker under its digest, and leaves the run as it is for other kinds. */
  lemma TerminalCompletes(p: Plan, r: Run, id: string, outcome: string, digest: Option<string>)
    requires ValidPlan(p) && Inv(p, r)
    requires Transition(Running(r), ChildTerminal(id, outcome, digest)).Ok?
    ensures outcome == "success" || outcome == "completed"
    ensures ActiveRecord(r, id).Some?
    ensures var next := Transition(Running(r), ChildTerminal(id, outcome, digest)).value;
            if ActiveRecord(r, id).value.kind.Worker? then
              && digest.Some? && CompletedIn(next) == r.completed.Keys + {id}
              && id in BooksOf(next) && BooksOf(next)[id].evidence.results.worker == digest
            else next == Running(r)
  {
    hide CompleteWorker, Inv, ValidPlan, ActiveRecord, AllBooked, PhaseInv;
    TerminalIsObserved(r, id, outcome, digest);
    if ActiveRecord(r, id).value.kind.Worker? {
      CompleteWorkerKeeps(p, r, id, digest.value);
    }
  }

  /** What an event that completes a child of each kind looks like. */
  predicate CompletesA(kind: ChildKind, id: string, e: Event) {
    match kind
    case Worker =>
      || (e.WorkerCompleted? && e.child == id && !Empty(e.result))
      || (e.ChildTerminal? && e.child == id && (e.outcome == "success" || e.outcome == "completed")
          && e.digest.Some? && !Empty(e.digest.value))
    case Leaf => (e.LeafCompleted? && e.child == id && !Empty(e.result)) || (e.PostMergeStep? && e.step.child == id)
    case SubTL => e.PostMergeStep? && e.step.child == id
  }

  lemma CompletingEvent(p: Plan, r: Run, e: Event)
    requires ValidPlan(p) && Inv(p, r) && RunningTransition(r, e).Ok?
    requires CompletedIn(RunningTransition(r, e).value) != r.completed.Keys
    ensures ActiveRecord(r, Subject(e)).Some?
    ensures CompletesA(ActiveRecord(r, Subject(e)).value.kind, Subject(e), e)
  {
    if e.PostMergeStep? { CompletingStep(p, r, e.step); }
    hide RemoveActive, MakeRunning, Inv, ValidPlan, PostMergeTransition;
  }

  lemma CompletingStep(p: Plan, r: Run, e: PostMerge.Event)
    requires ValidPlan(p) && Inv(p, r) && PostMergeTransition(r, e).Ok?
    requires CompletedIn(PostMergeTransition(r, e).value) != r.completed.Keys
    ensures ActiveRecord(r, e.child).Some? && !ActiveRecord(r, e.child).value.kind.Worker?
  {
    hide RemoveActive, MakeRunning, Inv, ValidPlan, PostMerge.Advance;
  }

  /** In every run, a child that is done was completed by an accepted event of its own, of the kind its kind allows. */
  lemma {:induction false} CompletionHasItsEvent(p: Plan, events: seq<Event>, n: nat, c: Child) returns (m: nat)
    requires ValidPlan(p) && n <= |events| && Counting(At(p, events, n))
    requires c in All(p) && c.id in CompletedIn(At(p, events, n))
    ensures m < n && Completes(p, events, m) && Subject(events[m]) == c.id && CompletesA(c.kind, c.id, events[m])
  {
    hide Transition, Inv, WellFormedPlan, Sorted, CompletesA;
    m := 0;
    if n == 0 {
      assert false;
    } else {
      CompletionIsNew(p, events, n - 1);
      if Completes(p, events, n - 1) && Subject(events[n - 1]) == c.id {
        m := n - 1;
        CompletedByItsOwn(p, events, m, c);
      } else {
        m := CompletionHasItsEvent(p, events, n - 1, c);
      }
    }
  }

  lemma CompletedByItsOwn(p: Plan, events: seq<Event>, m: nat, c: Child)
    requires ValidPlan(p) && Completes(p, events, m) && c in All(p) && c.id == Subject(events[m])
    ensures CompletesA(c.kind, c.id, events[m])
  {
    CompletesMeans(p, events, m);
    RunsKeepTheInvariant(p, events, m);
    NextPhase(p, events, m);
    var phase := At(p, events, m);
    hide At, Inv, ValidPlan, CompletesA;
    PhaseCompletes(p, phase, events[m], At(p, events, m + 1), c);
  }

  lemma PhaseCompletes(p: Plan, phase: Phase, e: Event, next: Phase, c: Child)
    requires ValidPlan(p) && PhaseInv(p, phase) && phase.Running? && next == StepOrStay(phase, e) && Counting(next)
    requires CompletedIn(next) != CompletedIn(phase) && c in All(p) && c.id == Subject(e)
    ensures CompletesA(c.kind, c.id, e)
  {
    hide Inv, ValidPlan, CompletesA, RunningTransition, ActiveRecord;
    RunningStepped(phase.run, e, next);
    CompletingEvent(p, phase.run, e);
    SameChild(p, phase.run, c);
  }

  lemma RunningStepped(r: Run, e: Event, next: Phase)
    requires next == StepOrStay(Running(r), e) && Counting(next) && CompletedIn(next) != r.completed.Keys
    ensures RunningTransition(r, e) == Ok(next)
  {
    hide RunningTransition;
  }

  lemma SameChild(p: Plan, r: Run, c: Child)
    requires ValidPlan(p) && Inv(p, r) && c in All(p) && ActiveRecord(r, c.id).Some?
    ensures ActiveRecord(r, c.id).value == c
  {
    ActiveIsPending(p, r, c.id);
    SameRecord(All(p), c, ActiveRecord(r, c.id).value);
  }

  // ---- the result dictionary, and the bindings of a dispatch

  /** The fields that no constructor touches. */
  ghost predicate SameExtras(o: Outcome, next: Run) {
    o.Ok? && o.value.Running? ==>
      o.value.run.results == next.results && o.value.run.intents == next.intents && o.value.run.lanes == next.lanes
  }

  lemma ConstructionKeepsExtras(next: Run)
    ensures SameExtras(MakeRunning(next), next)
  {
    hide WellFormedRun, Normalized, SortedRecords, Defaulted;
  }

  lemma RemovalKeepsExtras(r: Run, c: Child, next: Run)
    ensures SameExtras(RemoveActive(r, c, next), next)
  {
    hide MakeRunning, Without, RemoveFrom, DropOrder, GroupAt, MinOrder, ValidScope;
    ConstructionKeepsExtras(next.(parallel := Without(r.parallel, {c.id})));
    ConstructionKeepsExtras(next.(parallel := []));
    if r.groups != [] { ConstructionKeepsExtras(next.(order := MinOrder(r.groups), parallel := [])); }
    var pending := RemoveFrom(r.groups, c.id);
    var rest := DropOrder(pending, r.order);
    ConstructionKeepsExtras(next.(groups := pending));
    if rest != [] { ConstructionKeepsExtras(next.(order := MinOrder(rest), groups := rest)); }
    ConstructionKeepsExtras(next.(order := 0, groups := []));
  }

  /** A result is filed under the child's own key, a worker's apart from a leaf's, and no other key changes. */
  lemma ResultsAreFiled(p: Plan, r: Run, id: string, digest: string)
    requires ValidPlan(p) && Inv(p, r)
    ensures var o := CompleteWorker(r, id, digest);
            o.Ok? && o.value.Running? ==> o.value.run.results == r.results[WorkerResult(id) := digest]
    ensures var o := CompleteLeaf(r, id, digest);
            o.Ok? && o.value.Running? ==> o.value.run.results == r.results[LeafResult(id) := digest]
  {
    if CompleteWorker(r, id, digest).Ok? {
      var c := ActiveRecord(r, id).value;
      var booked := Book(r, c, WorkerDone(r.post[id], digest));
      RemovalKeepsExtras(r, c, booked.(results := r.results[WorkerResult(id) := digest]));
    }
    if CompleteLeaf(r, id, digest).Ok? {
      var c := ActiveRecord(r, id).value;
      var booked := Book(r, c, LeafDone(r.post[id], digest));
      RemovalKeepsExtras(r, c, booked.(results := r.results[LeafResult(id) := digest]));
    }
    hide RemoveActive, Inv, ValidPlan, ActiveRecord;
  }

  lemma {:induction false} BindingsAre(s: seq<Child>, c: Child)
    requires Unique(s) && c in s
    ensures c.id in Bindings(s, false) <==> c.dispatchIntent.Some?
    ensures c.dispatchIntent.Some? ==> Bindings(s, false)[c.id] == c.dispatchIntent.value
    ensures c.id in Bindings(s, true) <==> c.laneId.Some?
    ensures c.laneId.Some? ==> Bindings(s, true)[c.id] == c.laneId.value
  {
    var rest := s[1..];
    assert s == [s[0]] + rest;
    UniqueSplit([s[0]], rest);
    if c == s[0] {
      BoundOnly(rest, c.id);
    } else {
      assert c in rest && c.id != s[0].id;
      BindingsAre(rest, c);
    }
  }

  lemma {:induction false} BoundOnly(s: seq<Child>, id: string)
    requires forall d :: d in s ==> d.id != id
    ensures id !in Bindings(s, false) && id !in Bindings(s, true)
  {
    if s != [] { BoundOnly(s[1..], id); }
  }

  /** Each child is bound to its own dispatch intent and its own lane. */
  ghost predicate OwnBindings(p: Plan, r: Run) {
    forall c :: c in All(p) ==>
      && (c.id in r.intents <==> c.dispatchIntent.Some?)
      && (c.dispatchIntent.Some? ==> r.intents[c.id] == c.dispatchIntent.value)
      && (c.id in r.lanes <==> c.laneId.Some?)
      && (c.laneId.Some? ==> r.lanes[c.id] == c.laneId.value)
  }

  lemma StartIsBound(p: Plan)
    requires ValidPlan(p)
    ensures OwnBindings(p, Start(p))
  {
    forall c | c in All(p)
      ensures c.id in Start(p).intents <==> c.dispatchIntent.Some?
      ensures c.dispatchIntent.Some? ==> Start(p).intents[c.id] == c.dispatchIntent.value
      ensures c.id in Start(p).lanes <==> c.laneId.Some?
      ensures c.laneId.Some? ==> Start(p).lanes[c.id] == c.laneId.value
    {
      BindingsAre(All(p), c);
    }
  }

  ghost predicate SameBindings(r: Run, o: Outcome) {
    o.Ok? && o.value.Running? ==> o.value.run.intents == r.intents && o.value.run.lanes == r.lanes
  }

  lemma ResultKeepsBindings(r: Run, id: string, digest: string)
    ensures SameBindings(r, CompleteWorker(r, id, digest)) && SameBindings(r, CompleteLeaf(r, id, digest))
  {
    var found := ActiveRecord(r, id);
    if found.Some? && id in r.post {
      var c := found.value;
      var worked, coded := Book(r, c, WorkerDone(r.post[id], digest)), Book(r, c, LeafDone(r.post[id], digest));
      RemovalKeepsExtras(r, c, worked.(results := r.results[WorkerResult(id) := digest]));
      RemovalKeepsExtras(r, c, coded.(results := r.results[LeafResult(id) := digest]));
    }
    hide RemoveActive, ActiveRecord;
  }

  lemma StepKeepsBindings(r: Run, e: PostMerge.Event)
    ensures SameBindings(r, PostMergeTransition(r, e))
  {
    hide RemoveActive, MakeRunning, ActiveRecord, PostMerge.Advance;
    var found := ActiveRecord(r, e.child);
    if found.Some? && e.child in r.post && PostMerge.Advance(r.post[e.child], e).Ok? {
      var state := PostMerge.Advance(r.post[e.child], e).value;
      RemovalKeepsExtras(r, found.value, Book(r, found.value, state));
      ConstructionKeepsExtras(r.(post := r.post[e.child := state]));
    }
  }

  lemma RunningKeepsBindings(r: Run, e: Event)
    ensures SameBindings(r, RunningTransition(r, e))
  {
    hide CompleteWorker, CompleteLeaf, PostMergeTransition, ActiveRecord;
    match e {
      case ChildTerminal(id, _, digest) => if digest.Some? { ResultKeepsBindings(r, id, digest.value); }
      case PostMergeStep(step) => StepKeepsBindings(r, step);
      case WorkerCompleted(id, result) => ResultKeepsBindings(r, id, result);
      case LeafCompleted(id, result) => ResultKeepsBindings(r, id, result);
      case _ =>
    }
  }

  lemma PhaseKeepsBindings(p: Plan, phase: Phase, e: Event)
    requires ValidPlan(p) && PhaseInv(p, phase) && (phase.Running? ==> OwnBindings(p, phase.run))
    ensures var next := StepOrStay(phase, e); next.Running? ==> OwnBindings(p, next.run)
  {
    hide Inv, ValidPlan, RunningTransition, ReleaseFirstStage, Start;
    if phase.Running? { RunningKeepsBindings(phase.run, e); }
    if phase.Planning? && e.StageReleased? {
      ReleaseKeeps(p, e.order, e.childIds);
      StartIsBound(p);
    }
  }

  /** In every running scope each declared child is bound to its own dispatch intent and lane, and to no other. */
  lemma {:induction false} BindingsLast(p: Plan, events: seq<Event>, n: nat)
    requires ValidPlan(p) && n <= |events| && At(p, events, n).Running?
    ensures OwnBindings(p, At(p, events, n).run)
  {
    hide Transition, ValidPlan, OwnBindings, PhaseInv;
    if n > 0 {
      RunsKeepTheInvariant(p, events, n - 1);
      if At(p, events, n - 1).Running? { BindingsLast(p, events, n - 1); }
      PhaseKeepsBindings(p, At(p, events, n - 1), events[n - 1]);
    }
  }

  // ---- finalization

  /** What a phase past the merge says of itself: its role, and what was proved. */
  predicate FiledAs(phase: Phase, e: Event) {
    match phase
    case Finalizing(role, _) => e == FinalizationRequested(role)
    case Done(_, proof) => e == FinalizationComplete(Root, proof)
    case PRFiled(_, proof) =>
      && e.FinalizationComplete? && e.role == NonRoot
      && proof.Keys == {AggregatePr, HeadSha, BaseSha, ParentBranch, Handoff} && proof.Keys <= e.proof.Keys
      && forall k :: k in proof ==> proof[k] == e.proof[k]
    case Failed(reason, _) => e == FailureRecorded(reason)
    case Parked(cause, diagnostic, _) => e == ParkRequested(cause, diagnostic)
    case _ => false
  }

  predicate Filed(phase: Phase) {
    phase.Finalizing? || phase.Done? || phase.PRFiled? || phase.Failed? || phase.Parked?
  }

  lemma FilingStep(p: Plan, phase: Phase, e: Event)
    requires ValidPlan(p) && PhaseInv(p, phase)
    ensures var next := StepOrStay(phase, e); Filed(next) ==> next == phase || FiledAs(next, e)
  {
    hide ReleaseFirstStage, RunningTransition, Inv, WellFormedPlan, Sorted, AllBooked, ValidScope;
    if phase.Running? && RunningTransition(phase.run, e).Ok? { RunningGoesOn(p, phase.run, e); }
    if phase.Planning? && e.StageReleased? { ReleaseKeeps(p, e.order, e.childIds); }
  }

  /** In every run what a finishing or stopped phase says was said by the event that led to it, word for word. */
  lemma {:induction false} FilingWasSaid(p: Plan, events: seq<Event>, n: nat) returns (m: nat)
    requires ValidPlan(p) && n <= |events| && Filed(At(p, events, n))
    ensures m < n && FiledAs(At(p, events, n), events[m])
    ensures At(p, events, m + 1) == At(p, events, n) != At(p, events, m)
  {
    hide StepOrStay, PhaseInv, ValidPlan, FiledAs;
    m := 0;
    if n > 0 {
      RunsKeepTheInvariant(p, events, n - 1);
      FilingStep(p, At(p, events, n - 1), events[n - 1]);
      if At(p, events, n) == At(p, events, n - 1) {
        m := FilingWasSaid(p, events, n - 1);
      } else {
        m := n - 1;
      }
    }
  }
}
