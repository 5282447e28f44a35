/** Which scope events are accepted, in terms of the plan and of what is done; and what completes a child. */
module ScopeAcceptance {
  import opened Prelude
  import opened Children
  import opened Scope
  import opened ScopeBarriers
  import opened ScopeRuns
  import opened ScopeTheorems
  import opened ScopeReplay
  import opened ScopeLateCopies
  import PostMerge
  import PM = PostMergeRuns

  // ---- whose turn it is

  /** Every child of an earlier stage is done. */
  ghost predicate StageOpen(ordered: seq<Group>, done: set<string>, k: nat)
    requires k < |ordered|
  {
    forall j, d :: 0 <= j < k && d in ordered[j].records ==> d.id in done
  }

  /** The child is not done, and is parallel work or in a stage all earlier stages of which are done. */
  ghost predicate Due(p: Plan, done: set<string>, c: Child) {
    && c.id !in done
    && (c in p.parallel
        || exists k :: 0 <= k < |p.ordered| && c in p.ordered[k].records && StageOpen(p.ordered, done, k))
  }

  lemma {:induction false} HeadIsOpen(ordered: seq<Group>, done: set<string>, c: Child)
    requires Pending(ordered, done) != [] && c in Pending(ordered, done)[0].records
    ensures c.id !in done
    ensures exists k :: 0 <= k < |ordered| && c in ordered[k].records && StageOpen(ordered, done, k)
  {
    var head := ordered[0].records;
    if Without(head, done) == [] {
      HeadIsOpen(ordered[1..], done, c);
      var k :| 0 <= k < |ordered[1..]| && c in ordered[1..][k].records && StageOpen(ordered[1..], done, k);
      AllWithout(head, done);
      forall j, d | 0 <= j < k + 1 && d in ordered[j].records ensures d.id in done {
        if j > 0 { assert d in ordered[1..][j - 1].records; }
      }
      assert c in ordered[k + 1].records && StageOpen(ordered, done, k + 1);
    } else {
      assert StageOpen(ordered, done, 0);
    }
  }

  lemma AllWithout(s: seq<Child>, done: set<string>)
    requires Without(s, done) == []
    ensures forall d :: d in s ==> d.id in done
  {
    forall d | d in s ensures d.id in done { assert d !in Without(s, done); }
  }

  lemma {:induction false} NoneWithout(s: seq<Child>, done: set<string>)
    requires forall d :: d in s ==> d.id in done
    ensures Without(s, done) == []
  {
    if s != [] { NoneWithout(s[1..], done); }
  }

  lemma {:induction false} OpenIsHead(ordered: seq<Group>, done: set<string>, c: Child, k: nat)
    requires k < |ordered| && c in ordered[k].records && StageOpen(ordered, done, k) && c.id !in done
    ensures Pending(ordered, done) != [] && c in Pending(ordered, done)[0].records
  {
    var head := ordered[0].records;
    if k > 0 {
      NoneWithout(head, done);
      forall j, d | 0 <= j < k - 1 && d in ordered[1..][j].records ensures d.id in done {
        assert d in ordered[j + 1].records;
      }
      OpenIsHead(ordered[1..], done, c, k - 1);
    } else {
      assert c in Without(head, done);
    }
  }

  /** The active records are exactly the children that are due. */
  lemma ActiveIff(p: Plan, r: Run, c: Child)
    requires ValidPlan(p) && Shape(p, r) && c in All(p)
    ensures ActiveRecord(r, c.id) == Some(c) <==> Due(p, r.completed.Keys, c)
  {
    var done := r.completed.Keys;
    if ActiveRecord(r, c.id) == Some(c) {
      ActiveIsPending(p, r, c.id);
      if c in r.parallel {
        assert c in p.parallel;
      } else {
        HeadIsOpen(p.ordered, done, c);
      }
    }
    if Due(p, done, c) {
      if c in p.parallel {
        assert c in r.parallel;
      } else {
        var k :| 0 <= k < |p.ordered| && c in p.ordered[k].records && StageOpen(p.ordered, done, k);
        OpenIsHead(p.ordered, done, c, k);
      }
      hide WellFormedPlan, Sorted, ActiveRecord;
      FoundActive(p, r, c);
    }
  }

  lemma ActiveIsDeclared(p: Plan, r: Run, id: string)
    requires ValidPlan(p) && Shape(p, r) && ActiveRecord(r, id).Some?
    ensures var c := ActiveRecord(r, id).value; c in All(p) && c.id == id && Due(p, r.completed.Keys, c)
  {
    hide ValidPlan, Shape, Due, ActiveRecord;
    ActiveIsPending(p, r, id);
    ActiveIff(p, r, ActiveRecord(r, id).value);
  }

  // ---- acceptance

  /** Some child of this identity and of one of these kinds is due. */
  ghost predicate SomeDue(p: Plan, r: Run, id: string, kinds: set<ChildKind>) {
    exists c :: c in All(p) && c.id == id && c.kind in kinds && Due(p, r.completed.Keys, c)
  }

  lemma DueIff(p: Plan, r: Run, id: string, kinds: set<ChildKind>)
    requires ValidPlan(p) && Shape(p, r)
    ensures SomeDue(p, r, id, kinds) <==> ActiveRecord(r, id).Some? && ActiveRecord(r, id).value.kind in kinds
  {
    hide ValidPlan, Shape, ActiveRecord, Due, All;
    if ActiveRecord(r, id).Some? { ActiveIsDeclared(p, r, id); }
    if c :| c in All(p) && c.id == id && c.kind in kinds && Due(p, r.completed.Keys, c) { ActiveIff(p, r, c); }
  }

  const ANY_KIND: set<ChildKind> := {Worker, Leaf, SubTL}

  /** A release names the first stage, or the parallel block when there is no stage, with its children in order. */
  predicate ReleaseNames(p: Plan, order: int, ids: seq<string>) {
    if p.ordered != [] then order == 1 && |ids| == |p.ordered[0].records|
                            && forall i | 0 <= i < |ids| :: ids[i] == p.ordered[0].records[i].id
    else order == 0 && |ids| == |p.parallel| && forall i | 0 <= i < |ids| :: ids[i] == p.parallel[i].id
  }

  /** The post-merge event advances a due pull-request child, or replays what completed a child. */
  ghost predicate StepAccepted(p: Plan, r: Run, e: PostMerge.Event) {
    e.child in r.post
    && (if r.post[e.child].phase.Complete? then PostMerge.Advance(r.post[e.child], e) == Ok(r.post[e.child])
        else SomeDue(p, r, e.child, {Leaf, SubTL}) && PostMerge.Advance(r.post[e.child], e).Ok?)
  }

  ghost predicate RunningAccepts(p: Plan, r: Run, e: Event) {
    match e
    case Heartbeat => true
    case Observed(id) => SomeDue(p, r, id, ANY_KIND)
    case ChildTerminal(id, outcome, digest) =>
      && (outcome == "success" || outcome == "completed")
      && (SomeDue(p, r, id, {Leaf, SubTL})
          || (SomeDue(p, r, id, {Worker}) && digest.Some? && !Empty(digest.value)))
    case PostMergeStep(step) => StepAccepted(p, r, step)
    case WorkerCompleted(id, result) => SomeDue(p, r, id, {Worker}) && !Empty(result)
    case LeafCompleted(id, result) => SomeDue(p, r, id, {Leaf}) && !Empty(result)
    case FailureRecorded(reason) => !Empty(reason)
    case ParkRequested(cause, diagnostic) => !Empty(cause) && !Empty(diagnostic)
    case _ => false
  }

  /** What a scope accepts, phase by phase. */
  ghost predicate Accepts(p: Plan, phase: Phase, e: Event) {
    match phase
    case Planning(_) =>
      (match e
       case PlanLoaded(scope) => scope == p.scope
       case StageReleased(order, ids) => ReleaseNames(p, order, ids)
       case FailureRecorded(reason) => !Empty(reason)
       case ParkRequested(cause, diagnostic) => !Empty(cause) && !Empty(diagnostic)
       case _ => false)
    case Running(r) => RunningAccepts(p, r, e)
    case AllMerged(_, _) =>
      (match e
       case FinalizationRequested(_) => true
       case FailureRecorded(reason) => !Empty(reason)
       case ParkRequested(cause, diagnostic) => !Empty(cause) && !Empty(diagnostic)
       case _ => false)
    case Finalizing(role, _) =>
      (match e
       case FinalizationComplete(said, proof) => said == role && Proves(role, proof)
       case FailureRecorded(reason) => !Empty(reason)
       case ParkRequested(cause, diagnostic) => !Empty(cause) && !Empty(diagnostic)
       case _ => false)
    case _ => false
  }

  /** A root proves its branch and checkout, another scope its handoff to the parent. */
  predicate Proves(role: Role, proof: map<ProofKey, string>) {
    var keys := if role.Root? then {RootBranch, LocalCheckout}
                else {AggregatePr, HeadSha, BaseSha, ParentBranch, Handoff};
    forall k | k in keys :: k in proof && !Empty(proof[k])
  }

  lemma {:induction false} IdListAt(s: seq<Child>)
    ensures |IdList(s)| == |s| && forall i :: 0 <= i < |s| ==> IdList(s)[i] == s[i].id
  {
    if s != [] { IdListAt(s[1..]); }
  }

  lemma IdListIff(s: seq<Child>, ids: seq<string>)
    ensures ids == IdList(s) <==> |ids| == |s| && forall i :: 0 <= i < |ids| ==> ids[i] == s[i].id
  {
    IdListAt(s);
  }

  /** A plan is released by exactly the announcement that names its first work. */
  lemma ReleaseIff(p: Plan, order: int, ids: seq<string>)
    requires ValidPlan(p)
    ensures ReleaseFirstStage(p, order, ids).Ok? <==> ReleaseNames(p, order, ids)
  {
    IdListIff(p.parallel, ids);
    if p.ordered != [] { IdListIff(p.ordered[0].records, ids); }
    if p.ordered != [] || p.parallel != [] {
      StartIsBuilt(p);
      FirstOrder(p);
    } else {
      EmptyPlanMerges(p);
    }
    hide RunningFromPlan, MakeAllMerged, Sorted, WellFormedPlan;
  }

  lemma FirstOrder(p: Plan)
    requires ValidPlan(p)
    ensures p.ordered != [] ==> p.ordered[0].order == 1
    ensures OrderOf(p.ordered) == if p.ordered != [] then 1 else 0
  {
  }

  lemma EmptyPlanMerges(p: Plan)
    requires ValidPlan(p)
    ensures MakeAllMerged(p.scope, map[]).Ok?
  {
  }

  lemma PlanningAcceptsIff(p: Plan, e: Event)
    requires ValidPlan(p)
    ensures Transition(Planning(p), e).Ok? <==> Accepts(p, Planning(p), e)
  {
    hide ReleaseFirstStage, ReleaseNames, WellFormedPlan, Sorted, ValidScope;
    ScopeKept(p, Planning(p));
    if e.StageReleased? { ReleaseIff(p, e.order, e.childIds); }
    if e.FailureRecorded? || e.ParkRequested? { StopIs(Planning(p), e); }
  }

  lemma StepAcceptedIff(p: Plan, r: Run, e: PostMerge.Event)
    requires ValidPlan(p) && Inv(p, r)
    ensures PostMergeTransition(r, e).Ok? <==> StepAccepted(p, r, e)
  {
    hide RemoveActive, MakeRunning, Shape, AllBooked, ValidPlan, PostMerge.Advance, ActiveRecord, SomeDue;
    hide Held, Advanced;
    DueIff(p, r, e.child, {Leaf, SubTL});
    var found := ActiveRecord(r, e.child);
    if e.child in r.post && !r.post[e.child].phase.Complete? && found.Some? && !found.value.kind.Worker?
       && PostMerge.Advance(r.post[e.child], e).Ok?
    {
      FoundHasId(r, e.child);
      PostMergeAccepted(p, r, found.value, e, PostMerge.Advance(r.post[e.child], e).value);
      HeldOrAdvanced(p, r, e.child, PostMergeTransition(r, e));
    }
  }

  lemma FoundHasId(r: Run, id: string)
    requires ActiveRecord(r, id).Some?
    ensures ActiveRecord(r, id).value.id == id
  {
  }

  lemma ResultsIff(p: Plan, r: Run, id: string, digest: string)
    requires ValidPlan(p) && Inv(p, r)
    ensures CompleteWorker(r, id, digest).Ok? <==> SomeDue(p, r, id, {Worker}) && !Empty(digest)
    ensures CompleteLeaf(r, id, digest).Ok? <==> SomeDue(p, r, id, {Leaf}) && !Empty(digest)
  {
    hide CompleteWorker, CompleteLeaf, Shape, AllBooked, ValidPlan, SomeDue, ActiveRecord;
    DueIff(p, r, id, {Worker});
    DueIff(p, r, id, {Leaf});
    WorkerAcceptedIff(p, r, id, digest);
    LeafAcceptedIff(p, r, id, digest);
  }

  /** A terminal report is accepted for a due child that succeeded, by one of two words; a worker needs its digest. */
  lemma TerminalIff(p: Plan, r: Run, id: string, outcome: string, digest: Option<string>)
    requires ValidPlan(p) && Inv(p, r)
    ensures TerminalObserved(r, id, outcome, digest).Ok? <==> RunningAccepts(p, r, ChildTerminal(id, outcome, digest))
  {
    hide CompleteWorker, CompleteLeaf, Inv, ValidPlan, SomeDue, ActiveRecord, Shape;
    InvShapes(p, r);
    DueIff(p, r, id, {Worker});
    DueIff(p, r, id, {Leaf, SubTL});
    if digest.Some? { ResultsIff(p, r, id, digest.value); }
  }

  lemma KindIsAny(kind: ChildKind)
    ensures kind in ANY_KIND
  {
  }

  lemma ObservedIff(p: Plan, r: Run, id: string)
    requires ValidPlan(p) && Inv(p, r)
    ensures RunningTransition(r, Observed(id)).Ok? <==> SomeDue(p, r, id, ANY_KIND)
  {
    hide Shape, AllBooked, ValidPlan, SomeDue, ActiveRecord;
    DueIff(p, r, id, ANY_KIND);
    if ActiveRecord(r, id).Some? { KindIsAny(ActiveRecord(r, id).value.kind); }
  }

  lemma RunningAcceptsIff(p: Plan, r: Run, e: Event)
    requires ValidPlan(p) && Inv(p, r) && !e.FailureRecorded? && !e.ParkRequested?
    ensures RunningTransition(r, e).Ok? <==> RunningAccepts(p, r, e)
  {
    hide CompleteWorker, CompleteLeaf, Inv, ValidPlan, SomeDue, ActiveRecord, StepAccepted, PostMergeTransition;
    match e {
      case Observed(id) => ObservedIff(p, r, id);
      case ChildTerminal(id, outcome, digest) => TerminalIff(p, r, id, outcome, digest);
      case PostMergeStep(step) => StepAcceptedIff(p, r, step);
      case WorkerCompleted(id, result) => ResultsIff(p, r, id, result);
      case LeafCompleted(id, result) => ResultsIff(p, r, id, result);
      case _ =>
    }
  }

  lemma RunningPhaseStopsIff(p: Plan, r: Run, e: Event)
    requires ValidPlan(p) && Inv(p, r) && (e.FailureRecorded? || e.ParkRequested?)
    ensures Transition(Running(r), e).Ok? <==> Accepts(p, Running(r), e)
  {
    hide Transition, Inv, ValidPlan, ValidScope, SomeDue, StepAccepted;
    ScopeKept(p, Running(r));
    StopIs(Running(r), e);
  }

  lemma RunningPhaseAcceptsIff(p: Plan, r: Run, e: Event)
    requires ValidPlan(p) && Inv(p, r)
    ensures Transition(Running(r), e).Ok? <==> Accepts(p, Running(r), e)
  {
    hide RunningTransition, Inv, ValidPlan, SomeDue, StepAccepted, ReleaseFirstStage, MakeFailed, MakeParked;
    if e.FailureRecorded? || e.ParkRequested? {
      RunningPhaseStopsIff(p, r, e);
    } else {
      RunningAcceptsIff(p, r, e);
    }
  }

  lemma FinishingAcceptsIff(p: Plan, phase: Phase, e: Event)
    requires ValidPlan(p) && PhaseInv(p, phase) && !phase.Planning? && !phase.Running?
    ensures Transition(phase, e).Ok? <==> Accepts(p, phase, e)
  {
    if Automatic(phase) { ScopeKept(p, phase); }
    hide WellFormedPlan, Sorted, AllBooked;
  }

  /** In every run the next scope event is accepted if and only if the plan and what is done call for it. */
  lemma AcceptedIff(p: Plan, events: seq<Event>, n: nat, e: Event)
    requires ValidPlan(p) && n <= |events|
    ensures Transition(At(p, events, n), e).Ok? <==> Accepts(p, At(p, events, n), e)
  {
    var phase := At(p, events, n);
    RunsKeepTheInvariant(p, events, n);
    hide At, Transition, Accepts, ValidPlan, Inv, AllBooked;
    match phase {
      case Planning(_) => PlanningAcceptsIff(p, e);
      case Running(r) => RunningPhaseAcceptsIff(p, r, e);
      case _ => FinishingAcceptsIff(p, phase, e);
    }
  }

  // ---- what the constructors demand

  lemma {:induction false} FlattenHolds(groups: seq<Group>, c: Child)
    ensures c in Flatten(groups) <==> exists i :: 0 <= i < |groups| && c in groups[i].records
  {
    if groups != [] {
      FlattenHolds(groups[1..], c);
      if i :| 0 <= i < |groups| && c in groups[i].records {
        if i > 0 { assert groups[1..][i - 1] == groups[i]; }
      }
      if i :| 0 <= i < |groups[1..]| && c in groups[1..][i].records { assert groups[i + 1] == groups[1..][i]; }
    }
  }

  predicate NamedScope(s: ScopeId) {
    s.path != [] && "" !in s.path && s.digest != ""
  }

  /** A plan is loaded exactly with a named scope, its sub-TLs in stages one to k, and no identity twice. */
  lemma PlanIsLoadedIff(p: Plan)
    ensures WellFormedPlan(p) <==>
              && NamedScope(p.scope)
              && (forall c :: c in p.parallel ==> c.kind == Worker || c.kind == Leaf)
              && (forall i :: 0 <= i < |p.ordered| ==> p.ordered[i].order == i + 1 && p.ordered[i].records != [])
              && (forall i, c :: 0 <= i < |p.ordered| && c in p.ordered[i].records ==> c.kind == SubTL)
              && (forall i, j :: 0 <= i < j < |All(p)| ==> All(p)[i].id != All(p)[j].id)
  {
    forall c ensures c in Flatten(p.ordered) <==> exists i :: 0 <= i < |p.ordered| && c in p.ordered[i].records {
      FlattenHolds(p.ordered, c);
    }
    if forall i, j :: 0 <= i < j < |All(p)| ==> All(p)[i].id != All(p)[j].id {
      assert Unique(All(p));
      UniqueSplit(p.parallel, Flatten(p.ordered));
      forall i | 0 <= i < |p.ordered| ensures Unique(p.ordered[i].records) { StageIsUnique(p.ordered, i); }
    }
    hide Flatten;
  }

  lemma {:induction false} StageIsUnique(groups: seq<Group>, i: nat)
    requires i < |groups| && Unique(Flatten(groups))
    ensures Unique(groups[i].records)
  {
    UniqueSplit(groups[0].records, Flatten(groups[1..]));
    if i > 0 { StageIsUnique(groups[1..], i - 1); }
  }

  /** Whatever run the constructor accepts, each completed record has the proof of its kind on file. */
  lemma CompletedRecordsAreProven(r: Run, k: string)
    requires MakeRunning(r).Ok? && k in r.completed
    ensures var run := MakeRunning(r).value.run;
            k in run.completed && k in run.post && run.completed[k] == r.completed[k]
    ensures var run := MakeRunning(r).value.run;
            var (c, s) := (run.completed[k], run.post[k]);
            var results := s.evidence.results;
            match c.kind
            case Worker => s.phase == PostMerge.NotRequired && results.worker.Some? && results.worker.value != ""
            case Leaf =>
              || s.phase == PostMerge.Complete
              || (s.phase == PostMerge.NotRequired && results.leaf.Some? && results.leaf.value != "")
            case SubTL => s.phase == PostMerge.Complete || (s.phase == PostMerge.NotRequired && c.aggregateDeclined)
  {
    hide Normalized, SortedRecords, Defaulted, ContiguousFrom, Unique, Flatten, ValidScope;
  }

  /** And the all-merged phase takes only finished machines and settled results. */
  lemma ConfirmationsAreProven(scope: ScopeId, confirmed: map<string, PostState>, k: string)
    requires MakeAllMerged(scope, confirmed).Ok? && k in confirmed
    ensures var s := confirmed[k];
            var results := s.evidence.results;
            || s.phase == PostMerge.Complete
            || (s.phase == PostMerge.NotRequired
                && ((results.worker.Some? && results.worker.value != "")
                    || (results.leaf.Some? && results.leaf.value != "") || results.aggregateDeclined))
  {
  }
}
