/** Whole runs of the scheduler: dispatch safety, progress and draining. */
module DispatchRuns {
  import opened Prelude
  import opened Graphs
  import opened Slices
  import opened Schedule
  import opened ScheduleProperties
  import opened Parking

  /** One durable change of the slice table. */
  datatype Step =
    /** dispatch some of the slices a readiness answer selected */
    | Spawn(order: seq<Id>, width: Option<int>, chosen: set<Id>)
    /** an observed status of one slice: refused or scheduled dispatches, review, failure, merge */
    | Observe(slice: Id, status: Status)
    /** a slice starts (or repeats) a recovery, and its dependents are suspended */
    | Recover(blocker: Id, round: nat)
    /** a recovery completes: it is cleared and the dependents are restored */
    | Recovered(blocker: Id)
    /** a recovering slice fails: its suspended dependents are abandoned */
    | Abandon(blocker: Id)
    | Withhold
    | ParkSlice(slice: Id, issue: Option<int>)

  ghost predicate Enabled(slices: Slices, glob: Glob, step: Step) {
    match step
    case Spawn(order, width, chosen) =>
      && Enumerates(order, slices.Keys)
      && ReadySpec(slices, order, width, glob).Selected?
      && forall x :: x in chosen ==> x in ReadySpec(slices, order, width, glob).ids
    case Observe(x, _) => x in slices
    case Recover(b, _) => b in slices
    case Recovered(b) => b in slices && slices[b].recovery.Some?
    case Abandon(b) => b in slices && slices[b].recovery.Some?
    case Withhold => true
    case ParkSlice(b, _) => b in slices
  }

  function Spawned(slices: Slices, chosen: set<Id>): Slices {
    map x | x in slices :: if x in chosen then slices[x].(status := Status.Spawned) else slices[x]
  }

  ghost function Apply(slices: Slices, step: Step): Slices {
    match step
    case Spawn(_, _, chosen) => Spawned(slices, chosen)
    case Observe(x, status) => if x in slices then slices[x := slices[x].(status := status)] else slices
    case Recover(b, round) =>
      if b in slices then SuspendSpec(slices[b := slices[b].(recovery := Some(round))], b, round) else slices
    case Recovered(b) =>
      if b in slices && slices[b].recovery.Some?
      then RestoreSpec(RecoveryCleared(slices, b), b, slices[b].recovery.value) else slices
    case Abandon(b) =>
      if b in slices && slices[b].recovery.Some?
      then var after := AbandonSpec(slices, b, slices[b].recovery.value);
           after[b := after[b].(status := Failed)]
      else slices
    case Withhold => WithholdSpec(slices)
    case ParkSlice(b, issue) => if b in slices then ParkSpec(slices, b, issue) else slices
  }

  /** The table after a run of enabled steps. */
  ghost predicate Run(start: Slices, glob: Glob, steps: seq<Step>, end: Slices) {
    if steps == [] then start == end
    else Enabled(start, glob, steps[0]) && Run(Apply(start, steps[0]), glob, steps[1..], end)
  }

  // ---- the invariant

  predicate Started(s: Status) {
    Live(s) || s.Merged?
  }

  /** Every live or merged slice has all its dependencies merged. */
  ghost predicate DependenciesFirst(slices: Slices) {
    forall x, d :: x in slices && Started(slices[x].status) && d in slices[x].dependsOn ==> Met(slices, d)
  }

  /** Live slices own disjoint paths. */
  ghost predicate OwnersDisjoint(slices: Slices, glob: Glob) {
    forall x, y | x in slices && y in slices && x != y && Live(slices[x].status) && Live(slices[y].status)
      :: !Collide(glob, slices[x], slices[y])
  }

  ghost predicate DependsTransitively(e: Edges, x: Id, b: Id) {
    exists p :: Walk(e, p) && |p| >= 2 && p[0] == x && p[|p| - 1] == b
  }

  /** A suspension remembers a status from before dispatch, and names a transitive prerequisite. */
  ghost predicate SuspensionsSound(slices: Slices) {
    forall x :: x in slices && slices[x].suspended.Some? ==>
      && !Started(slices[x].suspended.value.priorStatus)
      && DependsTransitively(DependencyEdges(slices), x, slices[x].suspended.value.blockedBy)
  }

  ghost predicate Safe(slices: Slices, glob: Glob) {
    && DependenciesFirst(slices)
    && OwnersDisjoint(slices, glob)
    && SuspensionsSound(slices)
  }

  /** A freshly loaded plan: everything pending, nothing recovering. */
  ghost predicate FreshPlan(slices: Slices) {
    forall x :: x in slices ==> slices[x].status.Pending? && slices[x].recovery.None? && slices[x].suspended.None?
  }

  /** Behind a started slice everything has merged, however far back. */
  lemma {:induction false} MergedAllTheWay(slices: Slices, p: seq<Id>)
    requires DependenciesFirst(slices)
    requires Walk(DependencyEdges(slices), p) && |p| >= 2
    requires p[0] in slices && Started(slices[p[0]].status)
    ensures Met(slices, p[|p| - 1])
    decreases |p|
  {
    assert p[1] in Targets(DependencyEdges(slices), p[0]);
    assert Met(slices, p[1]);
    if |p| > 2 {
      WalkSlice(DependencyEdges(slices), p, 1, |p|);
      assert p[1..|p|] == p[1..];
      MergedAllTheWay(slices, p[1..]);
    }
  }

  lemma StartedMeansMerged(slices: Slices, x: Id, b: Id)
    requires DependenciesFirst(slices)
    requires x in slices && Started(slices[x].status) && DependsTransitively(DependencyEdges(slices), x, b)
    ensures Met(slices, b)
  {
    var p :| Walk(DependencyEdges(slices), p) && |p| >= 2 && p[0] == x && p[|p| - 1] == b;
    MergedAllTheWay(slices, p);
  }

  /** A dependent depends transitively on the blocker. */
  lemma DependentDepends(slices: Slices, terminal: set<Status>, b: Id, x: Id)
    requires x in Dependents(slices, terminal, b)
    ensures DependsTransitively(DependencyEdges(slices), x, b)
  {
    var p :| Chain(slices, terminal, b, p) && p[|p| - 1] == x;
    var q := seq(|p|, i requires 0 <= i < |p| => p[|p| - 1 - i]);
    forall i, j | 0 <= i < j < |q| && j == i + 1 ensures q[j] in Targets(DependencyEdges(slices), q[i]) {
      assert Waits(slices, terminal, p[|p| - 1 - j], p[|p| - 1 - i]);
    }
    assert Walk(DependencyEdges(slices), q);
  }

  /** No dependent of an unmerged slice has been dispatched. */
  lemma DependentsNotStarted(slices: Slices, terminal: set<Status>, b: Id, x: Id)
    requires DependenciesFirst(slices)
    requires b !in slices || !slices[b].status.Merged?
    requires x in Dependents(slices, terminal, b)
    ensures x in slices && !Started(slices[x].status)
  {
    DependentDepends(slices, terminal, b, x);
    if x in slices && Started(slices[x].status) {
      StartedMeansMerged(slices, x, b);
    }
  }

  // ---- what a step takes back

  /** The slices a step returns to a status from before dispatch, or to a dead end. */
  ghost function TakenBack(slices: Slices, step: Step): set<Id> {
    match step
    case Spawn(_, _, _) => {}
    case Observe(x, _) => {x}
    case Recover(b, _) => Dependents(slices, SUSPEND_TERMINAL, b)
    case Recovered(b) => Marked(slices, b)
    case Abandon(b) => Marked(slices, b) + {b}
    case Withhold => set x | x in slices && Withheld(slices, x) != slices[x]
    case ParkSlice(b, _) => Dependents(slices, PARK_TERMINAL, b) + {b}
  }

  /** The slices suspended for the present recovery of `b`. */
  function Marked(slices: Slices, b: Id): set<Id> {
    if b !in slices || slices[b].recovery.None? then {}
    else set x | x in slices && SuspendedFor(slices[x], b, slices[b].recovery.value)
  }

  /** No started slice that stays started depends on one that is taken back. */
  ghost predicate NothingBuiltOn(slices: Slices, taken: set<Id>) {
    forall y, d :: y in slices && y !in taken && Started(slices[y].status) && d in slices[y].dependsOn ==> d !in taken
  }

  /**
   What a caller can check before a slice takes an observed status: nothing started is built on it unless it
   merges, a start finds its dependencies merged, and a live slice finds its paths free.
   */
  ghost predicate MayBecome(slices: Slices, glob: Glob, x: Id, status: Status)
    requires x in slices
  {
    && (!status.Merged? ==> forall y :: y in slices && x in slices[y].dependsOn ==>
                              !Started(if y == x then status else slices[y].status))
    && (Started(status) ==> forall d :: d in slices[x].dependsOn ==> d == x || Met(slices, d))
    && (Live(status) ==> forall y :: y in slices && y != x && Live(slices[y].status) ==>
                              !Collide(glob, slices[x], slices[y]))
  }

  /**
   What a caller can check before a step: nothing started is built on what the step takes back, and a
   recovery suspends a started slice only if that slice already carries this recovery's mark.
   */
  ghost predicate Sparing(slices: Slices, glob: Glob, step: Step) {
    match step
    case Observe(x, status) => x in slices && MayBecome(slices, glob, x, status)
    case Recover(b, round) =>
      var held := TakenBack(slices, step);
      NothingBuiltOn(slices, held) && RemembersUnstarted(slices, held, b, round)
    case _ => NothingBuiltOn(slices, TakenBack(slices, step))
  }

  /** Whatever is started among `held` already carries this mark, so the mark keeps the older status. */
  ghost predicate RemembersUnstarted(slices: Slices, held: set<Id>, b: Id, round: nat) {
    forall x :: x in held && x in slices && Started(slices[x].status) ==> SuspendedFor(slices[x], b, round)
  }

  /** `b` is `a` with the slices in `taken` no longer started, and the others started as before. */
  ghost predicate TakesBack(a: Slices, b: Slices, taken: set<Id>) {
    && a.Keys == b.Keys
    && forall x :: x in a ==>
         && a[x].dependsOn == b[x].dependsOn && a[x].paths == b[x].paths
         && (x in taken ==> !Started(b[x].status))
         && (x !in taken ==> (Started(b[x].status) <==> Started(a[x].status)))
         && (Live(b[x].status) ==> Live(a[x].status))
  }

  /** Taking slices back keeps the dependency order exactly when nothing started is built on them. */
  lemma DependenciesStayIff(a: Slices, b: Slices, taken: set<Id>)
    requires DependenciesFirst(a) && TakesBack(a, b, taken)
    ensures DependenciesFirst(b) <==> NothingBuiltOn(a, taken)
  {
    if NothingBuiltOn(a, taken) {
      forall x, d | x in b && Started(b[x].status) && d in b[x].dependsOn ensures Met(b, d) {
        assert Met(a, d);
      }
    }
    if DependenciesFirst(b) {
      forall y, d | y in a && y !in taken && Started(a[y].status) && d in a[y].dependsOn ensures d !in taken {
        assert Met(b, d);
      }
    }
  }

  /** So it keeps the whole invariant exactly when, besides, the suspensions stay sound. */
  lemma SafeIff(a: Slices, b: Slices, glob: Glob, taken: set<Id>)
    requires Safe(a, glob) && TakesBack(a, b, taken)
    ensures OwnersDisjoint(b, glob) && DependencyEdges(a) == DependencyEdges(b)
    ensures Safe(b, glob) <==> NothingBuiltOn(a, taken) && SuspensionsSound(b)
  {
    DependenciesStayIff(a, b, taken);
  }

  // ---- every step keeps the invariant exactly when it is sparing

  /** What a set of slices must satisfy to be dispatched together. */
  ghost predicate Dispatchable(slices: Slices, glob: Glob, ids: seq<Id>) {
    && PairwiseClear(slices, glob, ids)
    && forall x :: x in ids ==>
         && IsPending(slices, x)
         && (forall d :: d in slices[x].dependsOn ==> Met(slices, d))
         && Clear(slices, glob, x, Occupied(slices))
  }

  lemma DispatchKeepsDependencies(slices: Slices, glob: Glob, ids: seq<Id>, chosen: set<Id>)
    requires DependenciesFirst(slices) && Dispatchable(slices, glob, ids)
    requires forall x :: x in chosen ==> x in ids
    ensures DependenciesFirst(Spawned(slices, chosen))
  {
    var after := Spawned(slices, chosen);
    forall x, d | x in after && Started(after[x].status) && d in after[x].dependsOn ensures Met(after, d) {
      assert Met(slices, d);
      assert !IsPending(slices, d);
    }
  }

  lemma DispatchKeepsOwners(slices: Slices, glob: Glob, ids: seq<Id>, chosen: set<Id>, x: Id, y: Id)
    requires OwnersDisjoint(slices, glob) && Dispatchable(slices, glob, ids)
    requires forall z :: z in chosen ==> z in ids
    requires x in slices && y in slices && x != y
    requires x in chosen || Live(slices[x].status)
    requires y in chosen || Live(slices[y].status)
    ensures !Collide(glob, slices[x], slices[y])
  {
    CollideSymmetric(glob, slices[x], slices[y]);
    if x in chosen && y in chosen {
      var i :| 0 <= i < |ids| && ids[i] == x;
      var j :| 0 <= j < |ids| && ids[j] == y;
      assert i < j || j < i;
    } else if x in chosen {
      assert y in Occupied(slices);
    } else if y in chosen {
      assert x in Occupied(slices);
    }
  }

  lemma SpawnKeepsSafe(slices: Slices, glob: Glob, step: Step)
    requires Safe(slices, glob) && step.Spawn? && Enabled(slices, glob, step)
    ensures Safe(Apply(slices, step), glob)
  {
    ReadyFacts(slices, step.order, step.width, glob);
    var ids := ReadySpec(slices, step.order, step.width, glob).ids;
    assert Dispatchable(slices, glob, ids);
    SpawnedIsSafe(slices, glob, ids, step.chosen);
  }

  lemma SpawnedIsSafe(slices: Slices, glob: Glob, ids: seq<Id>, chosen: set<Id>)
    requires Safe(slices, glob) && Dispatchable(slices, glob, ids)
    requires forall x :: x in chosen ==> x in ids
    ensures Safe(Spawned(slices, chosen), glob)
  {
    var after := Spawned(slices, chosen);
    assert DependencyEdges(after) == DependencyEdges(slices);
    DispatchKeepsDependencies(slices, glob, ids, chosen);
    forall x, y | x in after && y in after && x != y && Live(after[x].status) && Live(after[y].status)
      ensures !Collide(glob, after[x], after[y])
    {
      DispatchKeepsOwners(slices, glob, ids, chosen, x, y);
    }
  }

  lemma ObserveKeepsOrderIff(slices: Slices, x: Id, status: Status)
    requires DependenciesFirst(slices) && x in slices
    ensures DependenciesFirst(slices[x := slices[x].(status := status)]) <==>
              && (!status.Merged? ==> forall y :: y in slices && x in slices[y].dependsOn ==>
                                        !Started(if y == x then status else slices[y].status))
              && (Started(status) ==> forall d :: d in slices[x].dependsOn ==> d == x || Met(slices, d))
  {
    var next := slices[x := slices[x].(status := status)];
    assert forall d :: Met(next, d) <==> if d == x then status.Merged? else Met(slices, d);
    assert forall y :: y in slices ==> next[y].dependsOn == slices[y].dependsOn;
    if DependenciesFirst(next) {
      forall y | y in slices && x in slices[y].dependsOn && !status.Merged?
        ensures !Started(if y == x then status else slices[y].status)
      {
        assert y in next && !Met(next, x);
      }
      forall d | d in slices[x].dependsOn && Started(status) ensures d == x || Met(slices, d) {
        assert Met(next, d);
      }
    }
  }

  lemma ObserveKeepsOwnersIff(slices: Slices, glob: Glob, x: Id, status: Status)
    requires OwnersDisjoint(slices, glob) && x in slices
    ensures OwnersDisjoint(slices[x := slices[x].(status := status)], glob) <==>
              (Live(status) ==> forall y :: y in slices && y != x && Live(slices[y].status) ==>
                                  !Collide(glob, slices[x], slices[y]))
  {
    var next := slices[x := slices[x].(status := status)];
    assert forall y :: y in slices && y != x ==> next[y] == slices[y];
    forall y | y in slices
      ensures Collide(glob, next[x], slices[y]) <==> Collide(glob, slices[x], slices[y])
      ensures Collide(glob, slices[y], next[x]) <==> Collide(glob, slices[x], slices[y])
    {
      SamePathsCollide(glob, next[x], slices[x], slices[y]);
      CollideSymmetric(glob, slices[y], next[x]);
    }
    if OwnersDisjoint(next, glob) && Live(status) {
      forall y | y in slices && y != x && Live(slices[y].status) ensures !Collide(glob, slices[x], slices[y]) {
        assert next[y] == slices[y] && !Collide(glob, next[x], next[y]);
      }
    }
  }

  lemma SamePathsCollide(glob: Glob, a: Slice, b: Slice, c: Slice)
    requires a.paths == b.paths
    ensures Collide(glob, a, c) <==> Collide(glob, b, c)
  {
  }

  lemma ObserveKeepsSuspensions(slices: Slices, x: Id, status: Status)
    requires SuspensionsSound(slices) && x in slices
    ensures SuspensionsSound(slices[x := slices[x].(status := status)])
  {
    assert DependencyEdges(slices[x := slices[x].(status := status)]) == DependencyEdges(slices);
  }

  lemma ObserveKeepsSafeIff(slices: Slices, glob: Glob, x: Id, status: Status)
    requires Safe(slices, glob) && Enabled(slices, glob, Observe(x, status))
    ensures Safe(Apply(slices, Observe(x, status)), glob) <==> Sparing(slices, glob, Observe(x, status))
  {
    hide DependenciesFirst, OwnersDisjoint, SuspensionsSound;
    ObserveKeepsOrderIff(slices, x, status);
    ObserveKeepsOwnersIff(slices, glob, x, status);
    ObserveKeepsSuspensions(slices, x, status);
  }

  /** A recovery mark is sound unless it would remember a started status. */
  lemma SuspensionsStayIff(slices: Slices, b: Id, round: nat, held: set<Id>)
    requires SuspensionsSound(slices)
    requires forall x :: x in held ==> x in slices && DependsTransitively(DependencyEdges(slices), x, b)
    ensures SuspensionsSound(SuspendAll(slices, held, b, round)) <==> RemembersUnstarted(slices, held, b, round)
  {
    var after := SuspendAll(slices, held, b, round);
    assert DependencyEdges(after) == DependencyEdges(slices);
    if SuspensionsSound(after) {
      forall x | x in held && x in slices && Started(slices[x].status) ensures SuspendedFor(slices[x], b, round) {
        assert x in after && after[x].suspended.Some?;
      }
    }
  }

  lemma RecoverKeepsSafeIff(slices: Slices, glob: Glob, b: Id, round: nat)
    requires Safe(slices, glob) && Enabled(slices, glob, Recover(b, round))
    ensures Safe(Apply(slices, Recover(b, round)), glob) <==> Sparing(slices, glob, Recover(b, round))
  {
    var marked := slices[b := slices[b].(recovery := Some(round))];
    var held := Dependents(slices, SUSPEND_TERMINAL, b);
    DependentsStable(slices, marked, SUSPEND_TERMINAL, b);
    forall x | x in held
      ensures x in slices && slices[x].status !in SUSPEND_TERMINAL
      ensures DependsTransitively(DependencyEdges(slices), x, b)
    {
      DependentIsNotTerminal(slices, SUSPEND_TERMINAL, b, x);
      DependentDepends(slices, SUSPEND_TERMINAL, b, x);
    }
    SuspendsSafelyIff(slices, glob, b, round, marked, held);
  }

  lemma SuspendsSafelyIff(slices: Slices, glob: Glob, b: Id, round: nat, marked: Slices, held: set<Id>)
    requires Safe(slices, glob) && b in slices && marked == slices[b := slices[b].(recovery := Some(round))]
    requires held == Dependents(slices, SUSPEND_TERMINAL, b) == Dependents(marked, SUSPEND_TERMINAL, b)
    requires forall x :: x in held ==>
               && x in slices && slices[x].status !in SUSPEND_TERMINAL
               && DependsTransitively(DependencyEdges(slices), x, b)
    ensures Safe(Apply(slices, Recover(b, round)), glob) <==> Sparing(slices, glob, Recover(b, round))
  {
    hide Safe, TakesBack, NothingBuiltOn, SuspensionsSound, Dependents, RemembersUnstarted, SuspendAll;
    RecoveryMarkIsNeutral(slices, glob, b, round, held);
    SuspensionsStayIff(marked, b, round, held);
    SuspendTakesBack(slices, b, round, held);
    SafeIff(slices, SuspendAll(marked, held, b, round), glob, held);
  }

  /** Marking the blocker as recovering changes neither the edges nor what suspensions say. */
  lemma RecoveryMarkIsNeutral(slices: Slices, glob: Glob, b: Id, round: nat, held: set<Id>)
    requires Safe(slices, glob) && b in slices
    ensures var marked := slices[b := slices[b].(recovery := Some(round))];
            && DependencyEdges(marked) == DependencyEdges(slices) && SuspensionsSound(marked)
            && (RemembersUnstarted(marked, held, b, round) <==> RemembersUnstarted(slices, held, b, round))
  {
    var marked := slices[b := slices[b].(recovery := Some(round))];
    assert DependencyEdges(marked) == DependencyEdges(slices);
    assert forall x :: x in slices ==>
      marked[x].status == slices[x].status && marked[x].suspended == slices[x].suspended;
  }

  lemma SuspendTakesBack(slices: Slices, b: Id, round: nat, held: set<Id>)
    requires b in slices
    ensures TakesBack(slices, SuspendAll(slices[b := slices[b].(recovery := Some(round))], held, b, round), held)
  {
  }

  /** The marked slices get back what their marks remember, which is no started status, and lose the mark. */
  lemma RecoveredTakesBack(slices: Slices, b: Id)
    requires SuspensionsSound(slices) && b in slices && slices[b].recovery.Some?
    ensures TakesBack(slices, Apply(slices, Recovered(b)), Marked(slices, b))
  {
  }

  lemma RecoveredDropsMarks(slices: Slices, b: Id)
    requires b in slices && slices[b].recovery.Some?
    ensures OnlyDropsMarks(slices, Apply(slices, Recovered(b)))
  {
  }

  /** `b` is `a` with some suspensions dropped and none added. */
  predicate OnlyDropsMarks(a: Slices, b: Slices) {
    a.Keys == b.Keys
    && forall x | x in a ::
         a[x].dependsOn == b[x].dependsOn && (b[x].suspended == a[x].suspended || b[x].suspended.None?)
  }

  lemma DroppedMarksAreSound(a: Slices, b: Slices)
    requires SuspensionsSound(a) && OnlyDropsMarks(a, b)
    ensures SuspensionsSound(b)
  {
    assert DependencyEdges(a) == DependencyEdges(b);
  }

  lemma DropKeepsSafeIff(a: Slices, b: Slices, glob: Glob, taken: set<Id>)
    requires Safe(a, glob) && TakesBack(a, b, taken) && OnlyDropsMarks(a, b)
    ensures Safe(b, glob) <==> NothingBuiltOn(a, taken)
  {
    SafeIff(a, b, glob, taken);
    DroppedMarksAreSound(a, b);
  }

  lemma RecoveredKeepsSafeIff(slices: Slices, glob: Glob, b: Id)
    requires Safe(slices, glob) && Enabled(slices, glob, Recovered(b))
    ensures Safe(Apply(slices, Recovered(b)), glob) <==> Sparing(slices, glob, Recovered(b))
  {
    RecoveredTakesBack(slices, b);
    hide Safe, Apply, TakesBack, OnlyDropsMarks, NothingBuiltOn, Marked;
    RecoveredDropsMarks(slices, b);
    DropKeepsSafeIff(slices, Apply(slices, Recovered(b)), glob, Marked(slices, b));
  }

  lemma AbandonTakesBack(slices: Slices, b: Id)
    requires b in slices && slices[b].recovery.Some?
    ensures TakesBack(slices, Apply(slices, Abandon(b)), Marked(slices, b) + {b})
  {
  }

  lemma AbandonDropsMarks(slices: Slices, b: Id)
    requires b in slices && slices[b].recovery.Some?
    ensures OnlyDropsMarks(slices, Apply(slices, Abandon(b)))
  {
  }

  lemma AbandonKeepsSafeIff(slices: Slices, glob: Glob, b: Id)
    requires Safe(slices, glob) && Enabled(slices, glob, Abandon(b))
    ensures Safe(Apply(slices, Abandon(b)), glob) <==> Sparing(slices, glob, Abandon(b))
  {
    hide Safe, Apply, TakesBack, OnlyDropsMarks, NothingBuiltOn;
    AbandonTakesBack(slices, b);
    AbandonDropsMarks(slices, b);
    DropKeepsSafeIff(slices, Apply(slices, Abandon(b)), glob, Marked(slices, b) + {b});
  }

  lemma WithholdTakesBack(slices: Slices)
    ensures TakesBack(slices, Apply(slices, Withhold), TakenBack(slices, Withhold))
    ensures OnlyDropsMarks(slices, Apply(slices, Withhold))
  {
  }

  lemma WithholdKeepsSafeIff(slices: Slices, glob: Glob)
    requires Safe(slices, glob)
    ensures Safe(Apply(slices, Withhold), glob) <==> Sparing(slices, glob, Withhold)
  {
    hide Safe, Apply, TakesBack, OnlyDropsMarks, NothingBuiltOn, TakenBack;
    WithholdTakesBack(slices);
    DropKeepsSafeIff(slices, Apply(slices, Withhold), glob, TakenBack(slices, Withhold));
  }

  lemma ParkTakesBack(slices: Slices, b: Id, issue: Option<int>, held: set<Id>)
    requires b in slices && b in held
    ensures TakesBack(slices, ParkAll(slices, b, held, issue), held)
    ensures OnlyDropsMarks(slices, ParkAll(slices, b, held, issue))
  {
  }

  lemma ParkKeepsSafeIff(slices: Slices, glob: Glob, b: Id, issue: Option<int>)
    requires Safe(slices, glob) && Enabled(slices, glob, ParkSlice(b, issue))
    ensures Safe(Apply(slices, ParkSlice(b, issue)), glob) <==> Sparing(slices, glob, ParkSlice(b, issue))
  {
    hide Safe, TakesBack, OnlyDropsMarks, NothingBuiltOn, ParkAll, Dependents;
    var held := Dependents(slices, PARK_TERMINAL, b) + {b};
    ParkTakesBack(slices, b, issue, held);
    DropKeepsSafeIff(slices, ParkAll(slices, b, held, issue), glob, held);
  }

  lemma SpawnKeepsSafeIff(slices: Slices, glob: Glob, step: Step)
    requires Safe(slices, glob) && step.Spawn? && Enabled(slices, glob, step)
    ensures Safe(Apply(slices, step), glob) <==> Sparing(slices, glob, step)
  {
    SpawnKeepsSafe(slices, glob, step);
    hide Safe, Apply, Enabled;
  }

  /** On a safe table every step keeps dispatch safety if and only if it is sparing. */
  lemma StepKeepsSafeIff(slices: Slices, glob: Glob, step: Step)
    requires Safe(slices, glob) && Enabled(slices, glob, step)
    ensures Safe(Apply(slices, step), glob) <==> Sparing(slices, glob, step)
  {
    hide Safe, Apply, Enabled, Sparing;
    match step
    case Spawn(_, _, _) => SpawnKeepsSafeIff(slices, glob, step);
    case Observe(x, status) => ObserveKeepsSafeIff(slices, glob, x, status);
    case Recover(b, round) => RecoverKeepsSafeIff(slices, glob, b, round);
    case Recovered(b) => RecoveredKeepsSafeIff(slices, glob, b);
    case Abandon(b) => AbandonKeepsSafeIff(slices, glob, b);
    case Withhold => WithholdKeepsSafeIff(slices, glob);
    case ParkSlice(b, issue) => ParkKeepsSafeIff(slices, glob, b, issue);
  }

  ghost predicate SafeThroughout(start: Slices, glob: Glob, steps: seq<Step>)
    decreases |steps|
  {
    Safe(start, glob) && (steps == [] || SafeThroughout(Apply(start, steps[0]), glob, steps[1..]))
  }

  ghost predicate SparingThroughout(start: Slices, glob: Glob, steps: seq<Step>)
    decreases |steps|
  {
    steps == [] || (Sparing(start, glob, steps[0]) && SparingThroughout(Apply(start, steps[0]), glob, steps[1..]))
  }

  /** A run is safe at every point if and only if every one of its steps is sparing where it is taken. */
  lemma {:induction false} RunsAreSafeIff(start: Slices, glob: Glob, steps: seq<Step>, end: Slices)
    requires Safe(start, glob) && Run(start, glob, steps, end)
    ensures SafeThroughout(start, glob, steps) <==> SparingThroughout(start, glob, steps)
    ensures SparingThroughout(start, glob, steps) ==> Safe(end, glob)
    decreases |steps|
  {
    hide Safe, Apply, Enabled, Sparing;
    if steps != [] {
      StepKeepsSafeIff(start, glob, steps[0]);
      if Sparing(start, glob, steps[0]) { RunsAreSafeIff(Apply(start, steps[0]), glob, steps[1..], end); }
    }
  }

  lemma FreshIsSafe(start: Slices, glob: Glob)
    requires FreshPlan(start)
    ensures Safe(start, glob)
  {
  }

  // ---- runs in which nothing merged is taken back

  /**
   A disciplined step never takes a merged slice back: only a dispatched slice becomes live in another way
   or merges, a recovering slice does not merge, nothing is observed of a merged slice but its merge, and
   recoveries and parkings are of unmerged slices.
   */
  predicate Disciplined(slices: Slices, step: Step) {
    match step
    case Observe(x, status) =>
      x in slices ==>
        && (Live(status) ==> Live(slices[x].status)) && (status.Merged? ==> Started(slices[x].status))
        && (slices[x].status.Merged? ==> status.Merged?) && (status.Merged? ==> slices[x].recovery.None?)
    case Recover(b, _) => b in slices ==> !slices[b].status.Merged?
    case ParkSlice(b, _) => b in slices ==> !slices[b].status.Merged?
    case _ => true
  }

  ghost predicate DisciplinedThroughout(start: Slices, steps: seq<Step>)
    decreases |steps|
  {
    steps == [] || (Disciplined(start, steps[0]) && DisciplinedThroughout(Apply(start, steps[0]), steps[1..]))
  }

  predicate RecoveringIsUnmerged(slices: Slices) {
    forall x | x in slices && slices[x].recovery.Some? :: !slices[x].status.Merged?
  }

  lemma MarkedNotStarted(slices: Slices, glob: Glob, b: Id)
    requires Safe(slices, glob) && b in slices && !slices[b].status.Merged?
    ensures forall x :: x in Marked(slices, b) ==> x in slices && !Started(slices[x].status)
  {
    forall x | x in Marked(slices, b) ensures !Started(slices[x].status) {
      if Started(slices[x].status) { StartedMeansMerged(slices, x, b); }
    }
  }

  lemma DependentsNeverStarted(slices: Slices, terminal: set<Status>, b: Id)
    requires DependenciesFirst(slices) && b in slices && !slices[b].status.Merged?
    ensures forall x :: x in Dependents(slices, terminal, b) ==> x in slices && !Started(slices[x].status)
  {
    forall x | x in Dependents(slices, terminal, b) ensures x in slices && !Started(slices[x].status) {
      DependentsNotStarted(slices, terminal, b, x);
    }
  }

  /** Taking back only what has not merged is always sparing. */
  lemma UnmergedIsSparing(slices: Slices, taken: set<Id>)
    requires DependenciesFirst(slices)
    requires forall x :: x in taken && x in slices ==> !slices[x].status.Merged?
    ensures NothingBuiltOn(slices, taken)
  {
    forall y, d | y in slices && y !in taken && Started(slices[y].status) && d in slices[y].dependsOn
      ensures d !in taken
    {
      assert Met(slices, d);
    }
  }

  lemma DisciplinedIsSparing(slices: Slices, glob: Glob, step: Step)
    requires Safe(slices, glob) && RecoveringIsUnmerged(slices)
    requires Enabled(slices, glob, step) && Disciplined(slices, step)
    ensures Sparing(slices, glob, step)
  {
    match step {
      case Observe(x, status) => DisciplinedMayBecome(slices, glob, x, status);
      case Recover(b, _) => DependentsNeverStarted(slices, SUSPEND_TERMINAL, b);
      case Recovered(b) => MarkedNotStarted(slices, glob, b);
      case Abandon(b) => MarkedNotStarted(slices, glob, b);
      case ParkSlice(b, _) => DependentsNeverStarted(slices, PARK_TERMINAL, b);
      case _ =>
    }
    if !step.Observe? { UnmergedIsSparing(slices, TakenBack(slices, step)); }
  }

  lemma DisciplinedMayBecome(slices: Slices, glob: Glob, x: Id, status: Status)
    requires Safe(slices, glob) && x in slices && Disciplined(slices, Observe(x, status))
    ensures MayBecome(slices, glob, x, status)
  {
    if !status.Merged? {
      forall y | y in slices && x in slices[y].dependsOn
        ensures !Started(if y == x then status else slices[y].status)
      {
        assert !Met(slices, x);
      }
    }
  }

  lemma DisciplineStays(slices: Slices, glob: Glob, step: Step)
    requires Safe(slices, glob) && RecoveringIsUnmerged(slices)
    requires Enabled(slices, glob, step) && Disciplined(slices, step)
    ensures RecoveringIsUnmerged(Apply(slices, step))
  {
    if step.Recovered? {
      var cleared := RecoveryCleared(slices, step.blocker);
      assert forall x :: x in Apply(slices, step) ==> Apply(slices, step)[x].recovery == cleared[x].recovery;
    }
  }

  /**
   In every disciplined run from a fresh plan, live and merged slices have all their dependencies merged
   and live slices own disjoint paths.
   */
  lemma {:induction false} RunsAreSafe(start: Slices, glob: Glob, steps: seq<Step>, end: Slices)
    requires FreshPlan(start) || (Safe(start, glob) && RecoveringIsUnmerged(start))
    requires Run(start, glob, steps, end) && DisciplinedThroughout(start, steps)
    ensures SparingThroughout(start, glob, steps) && Safe(end, glob)
    decreases |steps|
  {
    if FreshPlan(start) { FreshIsSafe(start, glob); }
    hide Safe, Apply, Enabled, Sparing, FreshPlan, RecoveringIsUnmerged, Disciplined;
    if steps != [] {
      DisciplinedIsSparing(start, glob, steps[0]);
      DisciplineStays(start, glob, steps[0]);
      StepKeepsSafeIff(start, glob, steps[0]);
      RunsAreSafe(Apply(start, steps[0]), glob, steps[1..], end);
    }
  }

  // ---- joining runs, and what ends a suspension

  lemma {:induction false} RunJoined(start: Slices, glob: Glob, a: seq<Step>, mid: Slices, b: seq<Step>, end: Slices)
    requires Run(start, glob, a, mid) && Run(mid, glob, b, end)
    ensures Run(start, glob, a + b, end)
    decreases |a|
  {
    hide Enabled, Apply;
    if a == [] {
      assert a + b == b;
    } else {
      assert (a + b)[1..] == a[1..] + b;
      RunJoined(Apply(start, a[0]), glob, a[1..], mid, b, end);
    }
  }

  /** The ways a slice suspended behind `b` for recovery `g` loses that mark. */
  ghost predicate EndsSuspension(slices: Slices, step: Step, x: Id, b: Id, g: nat) {
    match step
    case Recovered(c) => c == b && b in slices && slices[b].recovery == Some(g)
    case Abandon(c) => c == b && b in slices && slices[b].recovery == Some(g)
    case Recover(c, round) => (c, round) != (b, g) && x in Dependents(slices, SUSPEND_TERMINAL, c)
    case Withhold => IsPending(slices, x) && UnsatisfiableDependencies(slices, x) != []
    case ParkSlice(c, _) => x in Dependents(slices, PARK_TERMINAL, c)
    case _ => false
  }

  lemma SuspensionEndsBy(slices: Slices, glob: Glob, step: Step, x: Id, b: Id, g: nat)
    requires x in slices && SuspendedFor(slices[x], b, g) && Enabled(slices, glob, step)
    ensures x in Apply(slices, step)
    ensures !SuspendedFor(Apply(slices, step)[x], b, g) ==> EndsSuspension(slices, step, x, b, g)
  {
    if step.Recover? {
      var marked := slices[step.blocker := slices[step.blocker].(recovery := Some(step.round))];
      DependentsStable(slices, marked, SUSPEND_TERMINAL, step.blocker);
    }
  }

  /**
   A suspension lasts along a run until its own blocker recovers or is abandoned in that very recovery,
   another recovery takes the slice over, or the slice itself is blocked: the step that ended it is one of these.
   */
  lemma {:induction false} SuspensionLastsUntil(start: Slices, glob: Glob, steps: seq<Step>, end: Slices,
                                                x: Id, b: Id, g: nat)
    returns (i: nat, at: Slices)
    requires Run(start, glob, steps, end) && x in start && SuspendedFor(start[x], b, g)
    requires x in end && !SuspendedFor(end[x], b, g)
    ensures i < |steps| && Run(start, glob, steps[..i], at) && Enabled(at, glob, steps[i])
    ensures x in at && SuspendedFor(at[x], b, g) && EndsSuspension(at, steps[i], x, b, g)
    decreases |steps|
  {
    hide Enabled, Apply, EndsSuspension, SuspendedFor;
    SuspensionEndsBy(start, glob, steps[0], x, b, g);
    if !SuspendedFor(Apply(start, steps[0])[x], b, g) {
      i, at := 0, start;
      assert steps[..0] == [];
    } else {
      i, at := SuspensionLastsUntil(Apply(start, steps[0]), glob, steps[1..], end, x, b, g);
      i := i + 1;
      assert steps[..i][0] == steps[0] && steps[..i][1..] == steps[1..][..i - 1];
    }
  }

  lemma {:induction false} ElementsCount(s: seq<Id>)
    ensures |Elements(s)| <= |s|
  {
    if s != [] {
      ElementsCount(s[1..]);
      assert s == [s[0]] + s[1..];
      assert Elements(s) == {s[0]} + Elements(s[1..]);
    }
  }

  lemma SubsetCount(a: set<Id>, b: set<Id>)
    requires a <= b
    ensures |a| <= |b|
  {
    assert b == a + (b - a);
  }

  /** A spawn never lifts the number of places taken above the width, unless it was already above. */
  lemma SpawnRespectsWidth(slices: Slices, glob: Glob, step: Step)
    requires step.Spawn? && step.width.Some? && Enabled(slices, glob, step)
    ensures |Places(Apply(slices, step))| <= Max(|Places(slices)|, step.width.value)
  {
    ReadyFacts(slices, step.order, step.width, glob);
    var ids := ReadySpec(slices, step.order, step.width, glob).ids;
    ElementsCount(ids);
    SubsetCount(Places(Apply(slices, step)), Places(slices) + Elements(ids));
    assert Places(slices) !! Elements(ids);
  }

  /** Who can take a place by a step other than a spawn: the blocker that recovered, or a slice observed live. */
  function Activated(step: Step): set<Id> {
    match step
    case Recovered(b) => {b}
    case Observe(x, status) => if Live(status) then {x} else {}
    case _ => {}
  }

  /** No other step takes a place; an observation does not either when the slice was live before. */
  lemma OnlySpawnAndRecoveryAddActive(slices: Slices, glob: Glob, step: Step)
    requires Safe(slices, glob) && Enabled(slices, glob, step) && !step.Spawn?
    ensures Places(Apply(slices, step)) <= Places(slices) + Activated(step)
    ensures Disciplined(slices, step) ==>
              Places(Apply(slices, step)) <= Places(slices) + (if step.Recovered? then {step.blocker} else {})
  {
    match step
    case Recovered(b) =>
      var cleared := RecoveryCleared(slices, b);
      assert DependencyEdges(cleared) == DependencyEdges(slices);
    case Recover(b, round) =>
    case Abandon(b) =>
    case Observe(_, _) =>
    case Withhold =>
    case ParkSlice(_, _) =>
  }
}
