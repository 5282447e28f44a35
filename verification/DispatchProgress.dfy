/** Progress: a validated plan always has something to dispatch, and runs to completion. */
module DispatchProgress {
  import opened Prelude
  import opened Graphs
  import opened Slices
  import opened Schedule
  import opened ScheduleProperties
  import opened DispatchRuns
  import PlanDependencies

  // ---- progress

  /** Every dependency of a slice is a slice of the plan. */
  ghost predicate DependenciesPresent(slices: Slices) {
    forall x, d :: x in slices && d in slices[x].dependsOn ==> d in slices
  }

  /** Every slice still waits to be dispatched or has merged. */
  ghost predicate Undisturbed(slices: Slices) {
    forall x :: x in slices ==> slices[x].status.Pending? || slices[x].status.Merged?
  }

  ghost function PendingSet(slices: Slices): set<Id> {
    set x | x in slices && slices[x].status.Pending?
  }

  /** In an acyclic plan some pending slice waits for nothing pending. */
  lemma SomePendingIsEligible(slices: Slices)
    requires Acyclic(DependencyEdges(slices)) && DependenciesPresent(slices) && Undisturbed(slices)
    requires PendingSet(slices) != {}
    ensures exists x :: IsEligible(slices, x)
  {
    var x := MinimalNode(DependencyEdges(slices), PendingSet(slices));
    forall d | d in slices[x].dependsOn ensures Met(slices, d) {
      assert d in Targets(DependencyEdges(slices), x);
    }
    UnmetEmptyIff(slices, slices[x].dependsOn);
    assert IsEligible(slices, x);
  }

  /** With nothing live, the first eligible slice is always taken. */
  lemma FirstIsTaken(slices: Slices, glob: Glob, eligible: seq<Id>, capacity: Option<nat>)
    requires forall x :: x in eligible ==> x in slices
    requires Occupied(slices) == {} && eligible != [] && capacity != Some(0)
    ensures |Greedy(slices, glob, eligible, capacity, [])| > 0
  {
    assert Elements([]) == {};
    assert !CollidesWithAny(slices, glob, eligible[0], Occupied(slices) + Elements([]));
    GreedyFacts(slices, glob, eligible[1..], capacity, [eligible[0]]);
    assert Greedy(slices, glob, eligible, capacity, [])
        == Greedy(slices, glob, eligible[1..], capacity, [] + [eligible[0]]);
    assert [] + [eligible[0]] == [eligible[0]];
  }

  /** A validated plan with something pending always has something to dispatch. */
  lemma ReadyMakesProgress(slices: Slices, order: seq<Id>, width: Option<int>, glob: Glob)
    requires Enumerates(order, slices.Keys)
    requires Acyclic(DependencyEdges(slices)) && DependenciesPresent(slices) && Undisturbed(slices)
    requires PendingSet(slices) != {}
    requires width.Some? ==> width.value >= 1
    ensures ReadySpec(slices, order, width, glob).Selected? && |ReadySpec(slices, order, width, glob).ids| > 0
  {
    SomePendingIsEligible(slices);
    assert Occupied(slices) == {};
    CapacityWhenIdle(slices, width);
    EligibleEmptyIff(slices, order);
    FirstIsTaken(slices, glob, Eligible(slices, order), Capacity(slices, width));
  }

  /** Dispatch everything a readiness answer selected, and let it all merge. */
  ghost function DrainRound(slices: Slices, order: seq<Id>, width: Option<int>, glob: Glob): Slices {
    var r := ReadySpec(slices, order, width, glob);
    if r.Selected? then Merging(slices, r.ids) else slices
  }

  ghost function Drain(slices: Slices, order: seq<Id>, width: Option<int>, glob: Glob, rounds: nat): Slices
    decreases rounds
  {
    if rounds == 0 then slices
    else Drain(DrainRound(slices, order, width, glob), order, width, glob, rounds - 1)
  }

  /** The conditions under which a plan drains. */
  ghost predicate Drainable(slices: Slices, order: seq<Id>, width: Option<int>) {
    && Enumerates(order, slices.Keys)
    && Acyclic(DependencyEdges(slices)) && DependenciesPresent(slices) && Undisturbed(slices)
    && (width.Some? ==> width.value >= 1)
  }

  function Merging(slices: Slices, ids: seq<Id>): Slices {
    map x | x in slices :: if x in ids then slices[x].(status := Merged) else slices[x]
  }

  lemma MergingAdvances(slices: Slices, ids: seq<Id>)
    requires forall x :: x in ids ==> IsPending(slices, x)
    ensures var next := Merging(slices, ids);
            && next.Keys == slices.Keys && DependencyEdges(next) == DependencyEdges(slices)
            && (Undisturbed(slices) ==> Undisturbed(next))
            && (DependenciesPresent(slices) ==> DependenciesPresent(next))
            && PendingSet(next) <= PendingSet(slices)
            && (ids != [] ==> |PendingSet(next)| < |PendingSet(slices)|)
  {
    var next := Merging(slices, ids);
    if ids != [] {
      assert ids[0] in ids;
      assert ids[0] in PendingSet(slices) && ids[0] !in PendingSet(next);
      SubsetCount(PendingSet(next), PendingSet(slices) - {ids[0]});
    }
  }

  lemma DrainRoundAdvances(slices: Slices, order: seq<Id>, width: Option<int>, glob: Glob)
    requires Drainable(slices, order, width)
    ensures var next := DrainRound(slices, order, width, glob);
            && Drainable(next, order, width) && next.Keys == slices.Keys
            && PendingSet(next) <= PendingSet(slices)
            && (PendingSet(slices) != {} ==> |PendingSet(next)| < |PendingSet(slices)|)
  {
    var r := ReadySpec(slices, order, width, glob);
    if r.Selected? {
      ReadyFacts(slices, order, width, glob);
      MergingAdvances(slices, r.ids);
    }
    if PendingSet(slices) != {} {
      ReadyMakesProgress(slices, order, width, glob);
    }
  }

  // ---- a round is a spawn followed by merges

  function MergeSteps(ids: seq<Id>): seq<Step> {
    if ids == [] then [] else [Observe(ids[0], Merged)] + MergeSteps(ids[1..])
  }

  lemma {:induction false} MergesAreARun(slices: Slices, glob: Glob, ids: seq<Id>)
    requires forall x :: x in ids ==> x in slices && Started(slices[x].status)
    ensures Run(slices, glob, MergeSteps(ids), Merging(slices, ids))
    decreases |ids|
  {
    if ids == [] {
      assert Merging(slices, ids) == slices;
    } else {
      var x := ids[0];
      var next := slices[x := slices[x].(status := Merged)];
      assert ids == [x] + ids[1..];
      assert Merging(next, ids[1..]) == Merging(slices, ids);
      MergesAreARun(next, glob, ids[1..]);
      assert MergeSteps(ids)[1..] == MergeSteps(ids[1..]);
    }
  }

  lemma DrainRoundIsARun(slices: Slices, order: seq<Id>, width: Option<int>, glob: Glob) returns (steps: seq<Step>)
    requires Drainable(slices, order, width)
    ensures Run(slices, glob, steps, DrainRound(slices, order, width, glob))
  {
    var r := ReadySpec(slices, order, width, glob);
    if !r.Selected? { return []; }
    ReadyFacts(slices, order, width, glob);
    var spawn := Spawn(order, width, Elements(r.ids));
    var spawned := DispatchRuns.Spawned(slices, Elements(r.ids));
    assert Merging(spawned, r.ids) == Merging(slices, r.ids);
    MergesAreARun(spawned, glob, r.ids);
    SpawnIsARun(slices, glob, spawn);
    RunJoined(slices, glob, [spawn], spawned, MergeSteps(r.ids), Merging(slices, r.ids));
    steps := [spawn] + MergeSteps(r.ids);
  }

  lemma SpawnIsARun(slices: Slices, glob: Glob, spawn: Step)
    requires spawn.Spawn? && Enabled(slices, glob, spawn)
    ensures Run(slices, glob, [spawn], DispatchRuns.Spawned(slices, spawn.chosen))
  {
    assert [spawn][1..] == [];
  }

  lemma NothingPendingIsMerged(slices: Slices)
    requires Undisturbed(slices) && |PendingSet(slices)| == 0
    ensures forall x :: x in slices ==> slices[x].status.Merged?
  {
    forall x | x in slices ensures slices[x].status.Merged? { assert x !in PendingSet(slices); }
  }

  /** The same slices, all of them merged. */
  ghost predicate Drained(slices: Slices, end: Slices) {
    end.Keys == slices.Keys && forall x :: x in end ==> end[x].status.Merged?
  }

  /**
   Repeating ready, spawn and merge drains the whole plan, in at most as many rounds as slices are pending;
   the rounds are a run of spawn and merge steps.
   */
  lemma {:induction false} DrainsWholePlan(slices: Slices, order: seq<Id>, width: Option<int>, glob: Glob, rounds: nat)
    returns (steps: seq<Step>)
    requires Drainable(slices, order, width) && |PendingSet(slices)| <= rounds
    ensures var end := Drain(slices, order, width, glob, rounds);
            Drained(slices, end) && Run(slices, glob, steps, end)
    decreases rounds
  {
    hide *;
    if rounds == 0 {
      NothingToDrain(slices, order, width, glob);
      steps := [];
    } else {
      var next := DrainRound(slices, order, width, glob);
      var end := Drain(next, order, width, glob, rounds - 1);
      RoundShrinks(slices, order, width, glob, rounds);
      DrainOneRound(slices, order, width, glob, rounds);
      var round := DrainRoundIsARun(slices, order, width, glob);
      var rest := DrainsWholePlan(next, order, width, glob, rounds - 1);
      SameSlicesDrained(slices, next, end);
      RunJoined(slices, glob, round, next, rest, end);
      steps := round + rest;
    }
  }

  lemma NothingToDrain(slices: Slices, order: seq<Id>, width: Option<int>, glob: Glob)
    requires Drainable(slices, order, width) && |PendingSet(slices)| == 0
    ensures Drained(slices, Drain(slices, order, width, glob, 0))
    ensures Run(slices, glob, [], Drain(slices, order, width, glob, 0))
  {
    NothingPendingIsMerged(slices);
  }

  /** A round leaves a drainable plan with less pending than rounds remain. */
  lemma RoundShrinks(slices: Slices, order: seq<Id>, width: Option<int>, glob: Glob, rounds: nat)
    requires Drainable(slices, order, width) && |PendingSet(slices)| <= rounds && rounds > 0
    ensures var next := DrainRound(slices, order, width, glob);
            Drainable(next, order, width) && next.Keys == slices.Keys && |PendingSet(next)| <= rounds - 1
  {
    hide Drainable, DrainRound, PendingSet;
    DrainRoundAdvances(slices, order, width, glob);
    NoPendingLeft(slices);
    SubsetCount(PendingSet(DrainRound(slices, order, width, glob)), PendingSet(slices));
  }

  lemma SameSlicesDrained(slices: Slices, next: Slices, end: Slices)
    requires next.Keys == slices.Keys && Drained(next, end)
    ensures Drained(slices, end)
  {
  }

  lemma DrainOneRound(slices: Slices, order: seq<Id>, width: Option<int>, glob: Glob, rounds: nat)
    requires rounds > 0
    ensures Drain(slices, order, width, glob, rounds)
         == Drain(DrainRound(slices, order, width, glob), order, width, glob, rounds - 1)
  {
  }

  lemma NoPendingLeft(slices: Slices)
    ensures PendingSet(slices) == {} <==> |PendingSet(slices)| == 0
  {
  }

  /** The slices of a plan carry the normalized edges that validation accepted. */
  ghost predicate BuiltFrom(slices: Slices, edges: Edges, leafNames: set<Id>) {
    && slices.Keys == leafNames
    && FreshPlan(slices)
    && forall x :: x in slices ==> slices[x].dependsOn == Targets(edges, x)
  }

  /** Whatever leaf dependency declaration validation accepts, a run of the scheduler dispatches it to completion. */
  lemma ValidatedPlanDrains(declared: map<Id, PlanDependencies.Declared>, leafNames: set<Id>,
                            slices: Slices, order: seq<Id>, width: Option<int>, glob: Glob)
    returns (steps: seq<Step>)
    requires forall n :: n in declared ==> PlanDependencies.WellDeclared(declared[n])
    requires forall n :: n in declared ==>
               PlanDependencies.SameScope(n, PlanDependencies.Normalized(declared)[n], leafNames)
    requires Acyclic(PlanDependencies.Normalized(declared))
    requires BuiltFrom(slices, PlanDependencies.Normalized(declared), leafNames)
    requires Enumerates(order, slices.Keys) && (width.Some? ==> width.value >= 1)
    ensures var end := Drain(slices, order, width, glob, |slices|);
            Run(slices, glob, steps, end) && end.Keys == leafNames && Drained(slices, end)
  {
    var edges := PlanDependencies.Normalized(declared);
    forall c ensures !IsCycle(DependencyEdges(slices), c) {
      if IsCycle(DependencyEdges(slices), c) {
        SameWalks(DependencyEdges(slices), edges, c);
        assert IsCycle(edges, c);
        assert false;
      }
    }
    forall x, d | x in slices && d in slices[x].dependsOn ensures d in slices {
      assert PlanDependencies.SameScope(x, edges[x], leafNames);
    }
    assert PendingSet(slices) == slices.Keys;
    assert |slices.Keys| == |slices|;
    steps := DrainsWholePlan(slices, order, width, glob, |slices|);
  }

  lemma SameWalks(a: Edges, b: Edges, p: seq<Id>)
    requires Walk(a, p) && forall n :: n in a ==> Targets(a, n) == Targets(b, n)
    ensures Walk(b, p)
  {
    forall i, j | 0 <= i < j < |p| && j == i + 1 ensures p[j] in Targets(b, p[i]) {
      assert p[j] in Targets(a, p[i]);
    }
  }
}
