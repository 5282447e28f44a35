/** Dispatch safety by itself: exactly which steps and which runs keep it, with no assumption on suspension marks. */
module DispatchSafety {
  import opened Prelude
  import opened Graphs
  import opened Slices
  import opened Schedule
  import opened ScheduleProperties
  import opened Parking
  import opened DispatchRuns

  /** Live and merged slices have all dependencies merged, and live slices own disjoint paths. */
  ghost predicate DispatchSafe(slices: Slices, glob: Glob) {
    DependenciesFirst(slices) && OwnersDisjoint(slices, glob)
  }

  /** The status of a slice after the recovery of `b` ends: a slice marked for it gets back what the mark remembers. */
  function StatusBack(slices: Slices, b: Id, x: Id): Status
    requires x in slices
  {
    if x in Marked(slices, b) then slices[x].suspended.value.priorStatus else slices[x].status
  }

  /** With the remembered statuses, edges at marked slices are in order and restored live slices have their paths. */
  ghost predicate RestoresSafely(slices: Slices, glob: Glob, b: Id) {
    && (forall x, d :: x in slices && d in slices[x].dependsOn && (x in Marked(slices, b) || d in Marked(slices, b))
                       && Started(StatusBack(slices, b, x)) ==>
                         d in slices && StatusBack(slices, b, d).Merged?)
    && (forall x, y :: x in Marked(slices, b) && y in slices && y != x
                       && Live(StatusBack(slices, b, x)) && Live(StatusBack(slices, b, y)) ==>
                         !Collide(glob, slices[x], slices[y]))
  }

  /**
   What a caller can check before a step. Dispatching, starting a recovery and withholding never need it; the
   others can take a merged slice back, or start one.
   */
  ghost predicate Harmless(slices: Slices, glob: Glob, step: Step) {
    match step
    case Observe(x, status) => x in slices && MayBecome(slices, glob, x, status)
    case Recovered(b) => RestoresSafely(slices, glob, b)
    case Abandon(_) => NothingBuiltOn(slices, TakenBack(slices, step))
    case ParkSlice(_, _) => NothingBuiltOn(slices, TakenBack(slices, step))
    case _ => true
  }

  // ---- steps that take slices back

  lemma TakingBackIff(a: Slices, b: Slices, glob: Glob, taken: set<Id>)
    requires DispatchSafe(a, glob) && TakesBack(a, b, taken)
    ensures DispatchSafe(b, glob) <==> NothingBuiltOn(a, taken)
  {
    DependenciesStayIff(a, b, taken);
    hide DependenciesFirst, NothingBuiltOn;
  }

  lemma RecoverKeepsDispatch(slices: Slices, glob: Glob, b: Id, round: nat)
    requires DispatchSafe(slices, glob) && b in slices
    ensures DispatchSafe(Apply(slices, Recover(b, round)), glob)
  {
    var marked := slices[b := slices[b].(recovery := Some(round))];
    var held := Dependents(slices, SUSPEND_TERMINAL, b);
    DependentsStable(slices, marked, SUSPEND_TERMINAL, b);
    forall x | x in held && x in slices ensures !slices[x].status.Merged? {
      DependentIsNotTerminal(slices, SUSPEND_TERMINAL, b, x);
    }
    UnmergedIsSparing(slices, held);
    hide Dependents, DispatchSafe, TakesBack, NothingBuiltOn, SuspendAll;
    SuspendTakesBack(slices, b, round, held);
    TakingBackIff(slices, SuspendAll(marked, held, b, round), glob, held);
  }

  lemma WithholdKeepsDispatch(slices: Slices, glob: Glob)
    requires DispatchSafe(slices, glob)
    ensures DispatchSafe(Apply(slices, Withhold), glob)
  {
    WithheldArePending(slices);
    UnmergedIsSparing(slices, TakenBack(slices, Withhold));
    hide DispatchSafe, TakesBack, NothingBuiltOn, Apply, TakenBack, DependenciesFirst;
    WithholdTakesBack(slices);
    TakingBackIff(slices, Apply(slices, Withhold), glob, TakenBack(slices, Withhold));
  }

  lemma WithheldArePending(slices: Slices)
    ensures forall x :: x in TakenBack(slices, Withhold) ==> x in slices && slices[x].status.Pending?
  {
  }

  lemma AbandonKeepsDispatchIff(slices: Slices, glob: Glob, b: Id)
    requires DispatchSafe(slices, glob) && Enabled(slices, glob, Abandon(b))
    ensures DispatchSafe(Apply(slices, Abandon(b)), glob) <==> Harmless(slices, glob, Abandon(b))
  {
    hide DispatchSafe, TakesBack, NothingBuiltOn, Apply;
    AbandonTakesBack(slices, b);
    TakingBackIff(slices, Apply(slices, Abandon(b)), glob, Marked(slices, b) + {b});
  }

  lemma ParkKeepsDispatchIff(slices: Slices, glob: Glob, b: Id, issue: Option<int>)
    requires DispatchSafe(slices, glob) && b in slices
    ensures DispatchSafe(Apply(slices, ParkSlice(b, issue)), glob) <==> Harmless(slices, glob, ParkSlice(b, issue))
  {
    hide DispatchSafe, TakesBack, NothingBuiltOn, ParkAll, Dependents;
    var held := Dependents(slices, PARK_TERMINAL, b) + {b};
    ParkTakesBack(slices, b, issue, held);
    TakingBackIff(slices, ParkAll(slices, b, held, issue), glob, held);
  }

  // ---- the end of a recovery

  /** `after` is `slices` with these statuses. */
  ghost predicate Restatused(slices: Slices, after: Slices, b: Id) {
    && after.Keys == slices.Keys
    && forall x :: x in slices ==>
         && after[x].dependsOn == slices[x].dependsOn && after[x].paths == slices[x].paths
         && after[x].status == StatusBack(slices, b, x)
  }

  lemma RecoveredRestatuses(slices: Slices, b: Id)
    requires b in slices && slices[b].recovery.Some?
    ensures Restatused(slices, Apply(slices, Recovered(b)), b)
  {
  }

  /** Away from the marked slices nothing changes; at them the remembered statuses decide. */
  lemma RestoredOrderIff(slices: Slices, after: Slices, b: Id)
    requires DependenciesFirst(slices) && Restatused(slices, after, b)
    ensures DependenciesFirst(after) <==>
              forall x, d :: x in slices && d in slices[x].dependsOn
                             && (x in Marked(slices, b) || d in Marked(slices, b))
                             && Started(StatusBack(slices, b, x)) ==>
                               d in slices && StatusBack(slices, b, d).Merged?
  {
    var marked := Marked(slices, b);
    forall x, d | x in slices && d in slices[x].dependsOn && x !in marked && d !in marked
                  && Started(StatusBack(slices, b, x))
      ensures Met(after, d)
    {
      assert Met(slices, d);
    }
    forall d ensures Met(after, d) <==> d in slices && StatusBack(slices, b, d).Merged? {
    }
    hide Marked, StatusBack;
  }

  lemma RestoredOwnersIff(slices: Slices, after: Slices, glob: Glob, b: Id)
    requires OwnersDisjoint(slices, glob) && Restatused(slices, after, b)
    ensures OwnersDisjoint(after, glob) <==>
              forall x, y :: x in Marked(slices, b) && y in slices && y != x
                             && Live(StatusBack(slices, b, x)) && Live(StatusBack(slices, b, y)) ==>
                               !Collide(glob, slices[x], slices[y])
  {
    forall x, y | x in slices && y in slices
      ensures Collide(glob, after[x], after[y]) <==> Collide(glob, slices[x], slices[y])
      ensures Collide(glob, slices[x], slices[y]) <==> Collide(glob, slices[y], slices[x])
    {
      CollideSymmetric(glob, slices[x], slices[y]);
      SamePathsCollide(glob, after[x], slices[x], after[y]);
      CollideSymmetric(glob, slices[x], after[y]);
      SamePathsCollide(glob, after[y], slices[y], slices[x]);
    }
    hide Collide;
    if OwnersDisjoint(after, glob) {
      forall x, y | x in Marked(slices, b) && y in slices && y != x
                    && Live(StatusBack(slices, b, x)) && Live(StatusBack(slices, b, y))
        ensures !Collide(glob, slices[x], slices[y])
      {
        assert !Collide(glob, after[x], after[y]);
      }
    }
  }

  lemma RecoveredKeepsDispatchIff(slices: Slices, glob: Glob, b: Id)
    requires DispatchSafe(slices, glob) && Enabled(slices, glob, Recovered(b))
    ensures DispatchSafe(Apply(slices, Recovered(b)), glob) <==> Harmless(slices, glob, Recovered(b))
  {
    hide DependenciesFirst, OwnersDisjoint, Apply, Restatused, Marked, StatusBack;
    RecoveredRestatuses(slices, b);
    RestoredOrderIff(slices, Apply(slices, Recovered(b)), b);
    RestoredOwnersIff(slices, Apply(slices, Recovered(b)), glob, b);
  }

  // ---- every step, and every run

  lemma SpawnKeepsDispatch(slices: Slices, glob: Glob, step: Step)
    requires DispatchSafe(slices, glob) && step.Spawn? && Enabled(slices, glob, step)
    ensures DispatchSafe(Apply(slices, step), glob)
  {
    ReadyFacts(slices, step.order, step.width, glob);
    var ids := ReadySpec(slices, step.order, step.width, glob).ids;
    assert Dispatchable(slices, glob, ids);
    hide ReadySpec;
    DispatchKeepsDependencies(slices, glob, ids, step.chosen);
    SpawnedOwners(slices, glob, ids, step.chosen);
  }

  lemma SpawnedOwners(slices: Slices, glob: Glob, ids: seq<Id>, chosen: set<Id>)
    requires OwnersDisjoint(slices, glob) && Dispatchable(slices, glob, ids)
    requires forall x :: x in chosen ==> x in ids
    ensures OwnersDisjoint(DispatchRuns.Spawned(slices, chosen), glob)
  {
    var after := DispatchRuns.Spawned(slices, chosen);
    forall x, y | x in after && y in after && x != y && Live(after[x].status) && Live(after[y].status)
      ensures !Collide(glob, after[x], after[y])
    {
      DispatchKeepsOwners(slices, glob, ids, chosen, x, y);
    }
  }

  lemma ObserveKeepsDispatchIff(slices: Slices, glob: Glob, x: Id, status: Status)
    requires DispatchSafe(slices, glob) && x in slices
    ensures DispatchSafe(Apply(slices, Observe(x, status)), glob) <==> Harmless(slices, glob, Observe(x, status))
  {
    hide DependenciesFirst, OwnersDisjoint;
    ObserveKeepsOrderIff(slices, x, status);
    ObserveKeepsOwnersIff(slices, glob, x, status);
  }

  /** On a dispatch-safe table a step keeps dispatch safety if and only if it is harmless. */
  lemma StepKeepsDispatchIff(slices: Slices, glob: Glob, step: Step)
    requires DispatchSafe(slices, glob) && Enabled(slices, glob, step)
    ensures DispatchSafe(Apply(slices, step), glob) <==> Harmless(slices, glob, step)
  {
    match step {
      case Spawn(_, _, _) => SpawnKeepsDispatch(slices, glob, step);
      case Observe(x, status) => ObserveKeepsDispatchIff(slices, glob, x, status);
      case Recover(b, round) => RecoverKeepsDispatch(slices, glob, b, round);
      case Recovered(b) => RecoveredKeepsDispatchIff(slices, glob, b);
      case Abandon(b) => AbandonKeepsDispatchIff(slices, glob, b);
      case Withhold => WithholdKeepsDispatch(slices, glob);
      case ParkSlice(b, issue) => ParkKeepsDispatchIff(slices, glob, b, issue);
    }
    hide DispatchSafe, Apply, RestoresSafely, MayBecome, NothingBuiltOn, TakenBack;
  }

  ghost predicate DispatchSafeThroughout(start: Slices, glob: Glob, steps: seq<Step>)
    decreases |steps|
  {
    DispatchSafe(start, glob) && (steps == [] || DispatchSafeThroughout(Apply(start, steps[0]), glob, steps[1..]))
  }

  ghost predicate HarmlessThroughout(start: Slices, glob: Glob, steps: seq<Step>)
    decreases |steps|
  {
    steps == [] || (Harmless(start, glob, steps[0]) && HarmlessThroughout(Apply(start, steps[0]), glob, steps[1..]))
  }

  /** A run is dispatch-safe at every point if and only if every one of its steps is harmless where it is taken. */
  lemma {:induction false} RunsAreDispatchSafeIff(start: Slices, glob: Glob, steps: seq<Step>, end: Slices)
    requires DispatchSafe(start, glob) && Run(start, glob, steps, end)
    ensures DispatchSafeThroughout(start, glob, steps) <==> HarmlessThroughout(start, glob, steps)
    ensures HarmlessThroughout(start, glob, steps) ==> DispatchSafe(end, glob)
    decreases |steps|
  {
    hide DispatchSafe, Apply, Enabled, Harmless;
    if steps != [] {
      StepKeepsDispatchIff(start, glob, steps[0]);
      if Harmless(start, glob, steps[0]) { RunsAreDispatchSafeIff(Apply(start, steps[0]), glob, steps[1..], end); }
    }
  }

  /** Where the marks are sound, sparing is enough. */
  lemma SparingIsHarmless(slices: Slices, glob: Glob, step: Step)
    requires Safe(slices, glob) && Enabled(slices, glob, step) && Sparing(slices, glob, step)
    ensures Harmless(slices, glob, step)
  {
    hide Apply, Enabled, Sparing, Harmless, DependenciesFirst, OwnersDisjoint, SuspensionsSound;
    StepKeepsSafeIff(slices, glob, step);
    StepKeepsDispatchIff(slices, glob, step);
  }

  /** `b` merged, and the live `x` depends on it. */
  function MergedBlocker(b: Id, x: Id): Slices {
    map[b := Slice(Merged, [], [], None, None, None, None), x := Slice(Status.Spawned, [], [b], None, None, None, None)]
  }

  /** But it is not needed: recovering a merged slice holds back a live dependent, and is harmless all the same. */
  lemma HarmlessIsWeaker(b: Id, x: Id, glob: Glob)
    requires b != x
    ensures Safe(MergedBlocker(b, x), glob) && Harmless(MergedBlocker(b, x), glob, Recover(b, 0))
    ensures !Sparing(MergedBlocker(b, x), glob, Recover(b, 0))
  {
    var slices := MergedBlocker(b, x);
    assert Waits(slices, SUSPEND_TERMINAL, b, x);
    ReachDirectly(slices, SUSPEND_TERMINAL, b, x);
    assert x in TakenBack(slices, Recover(b, 0));
  }
}
