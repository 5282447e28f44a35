/** A run in which a recovering slice merges, and the late end of its recovery takes a merged slice back. */
module DispatchHazards {
  import opened Prelude
  import opened Graphs
  import opened Slices
  import opened Schedule
  import opened ScheduleProperties
  import opened DispatchRuns

  /** Three slices of a plan. */
  datatype Trio = Trio(b: Id, x: Id, y: Id)

  predicate Apart(n: Trio) {
    n.b != n.x && n.b != n.y && n.x != n.y
  }

  function Order(n: Trio): seq<Id> {
    [n.b, n.x, n.y]
  }

  function Plain(status: Status, dependsOn: seq<Id>, recovery: Option<nat>, mark: Option<Suspension>): Slice {
    Slice(status, [], dependsOn, recovery, mark, None, None)
  }

  /** `y` depends on `x` and `x` on `b`; nobody owns a path. */
  function Table(n: Trio, b: Slice, x: Slice, y: Slice): Slices {
    map[n.b := b, n.x := x, n.y := y]
  }

  function B(status: Status, recovery: Option<nat>): Slice {
    Plain(status, [], recovery, None)
  }

  function X(n: Trio, status: Status, recovery: Option<nat>, marked: bool): Slice {
    Plain(status, [n.b], recovery, if marked then Some(Suspension(n.b, Pending, 0)) else None)
  }

  function Y(n: Trio, status: Status, blocker: Option<Id>): Slice {
    Plain(status, [n.x], None, if blocker.Some? then Some(Suspension(blocker.value, Pending, 0)) else None)
  }

  /** The tables of the run, in order. */
  function T(n: Trio, k: nat): Slices {
    if k == 0 then Table(n, B(Pending, None), X(n, Pending, None, false), Y(n, Pending, None))
    else if k == 1 then Table(n, B(Status.Spawned, None), X(n, Pending, None, false), Y(n, Pending, None))
    else if k == 2 then Table(n, B(Status.Spawned, Some(0)), X(n, Pending, None, true), Y(n, Pending, Some(n.b)))
    else if k == 3 then Table(n, B(Merged, Some(0)), X(n, Pending, None, true), Y(n, Pending, Some(n.b)))
    else if k == 4 then Table(n, B(Merged, Some(0)), X(n, Status.Spawned, None, true), Y(n, Pending, Some(n.b)))
    else if k == 5 then Table(n, B(Merged, Some(0)), X(n, Status.Spawned, Some(0), true), Y(n, Pending, Some(n.x)))
    else if k == 6 then Table(n, B(Merged, Some(0)), X(n, Status.Spawned, None, true), Y(n, Pending, None))
    else if k == 7 then Table(n, B(Merged, Some(0)), X(n, Merged, None, true), Y(n, Pending, None))
    else if k == 8 then Table(n, B(Merged, Some(0)), X(n, Merged, None, true), Y(n, Status.Spawned, None))
    else Table(n, B(Merged, None), X(n, Pending, None, false), Y(n, Status.Spawned, None))
  }

  /** `b` merges while it recovers; `x` recovers on its own, which hands `y` over from one suspension to the other. */
  function S(n: Trio, k: nat): Step {
    if k == 0 then Spawn(Order(n), None, {n.b})
    else if k == 1 then Recover(n.b, 0)
    else if k == 2 then Observe(n.b, Merged)
    else if k == 3 then Spawn(Order(n), None, {n.x})
    else if k == 4 then Recover(n.x, 0)
    else if k == 5 then Recovered(n.x)
    else if k == 6 then Observe(n.x, Merged)
    else if k == 7 then Spawn(Order(n), None, {n.y})
    else Recovered(n.b)
  }

  ghost predicate Steps(n: Trio, glob: Glob, k: nat) {
    Enabled(T(n, k), glob, S(n, k)) && Apply(T(n, k), S(n, k)) == T(n, k + 1)
  }

  /** An eligible slice that owns no path is always selected when the width is unbounded. */
  lemma EligibleCanSpawn(slices: Slices, order: seq<Id>, glob: Glob, x: Id)
    requires Enumerates(order, slices.Keys) && IsEligible(slices, x)
    requires forall s :: s in slices ==> slices[s].paths == []
    ensures Enabled(slices, glob, Spawn(order, None, {x}))
  {
    DeadlockMeans(slices, order, None, glob);
    ReadyFacts(slices, order, None, glob);
  }

  /** What a spawn needs of its table, and what it makes of it. */
  predicate Spawning(n: Trio, t: Slices, x: Id, next: Slices) {
    && t.Keys == {n.b, n.x, n.y} && (forall s | s in t :: t[s].paths == [])
    && IsEligible(t, x) && next == t[x := t[x].(status := Status.Spawned)]
  }

  lemma OrderEnumerates(n: Trio)
    requires Apart(n)
    ensures Enumerates(Order(n), {n.b, n.x, n.y})
  {
  }

  lemma SpawnOne(t: Slices, order: seq<Id>, x: Id)
    requires x in t
    ensures Apply(t, Spawn(order, None, {x})) == t[x := t[x].(status := Status.Spawned)]
  {
  }

  lemma SpawnStep(n: Trio, glob: Glob, t: Slices, x: Id, next: Slices)
    requires Apart(n) && Spawning(n, t, x, next)
    ensures Enabled(t, glob, Spawn(Order(n), None, {x})) && Apply(t, Spawn(Order(n), None, {x})) == next
  {
    SpawnOne(t, Order(n), x);
    hide Enabled, Enumerates, Apply;
    OrderEnumerates(n);
    EligibleCanSpawn(t, Order(n), glob, x);
  }

  lemma SpawningAt(n: Trio, k: nat)
    requires Apart(n) && (k == 0 || k == 3 || k == 7)
    ensures Spawning(n, T(n, k), if k == 0 then n.b else if k == 3 then n.x else n.y, T(n, k + 1))
  {
    var x := if k == 0 then n.b else if k == 3 then n.x else n.y;
    UnmetEmptyIff(T(n, k), T(n, k)[x].dependsOn);
  }

  lemma SpawnsAre(n: Trio, glob: Glob, k: nat)
    requires Apart(n) && (k == 0 || k == 3 || k == 7)
    ensures Steps(n, glob, k)
  {
    hide Enabled, Apply, T, Spawning;
    SpawningAt(n, k);
    SpawnStep(n, glob, T(n, k), if k == 0 then n.b else if k == 3 then n.x else n.y, T(n, k + 1));
  }

  lemma WaitsBehindB(n: Trio, t: Slices)
    requires Apart(n) && t == Table(n, B(Status.Spawned, Some(0)), X(n, Pending, None, false), Y(n, Pending, None))
    ensures Waits(t, SUSPEND_TERMINAL, n.b, n.x) && Waits(t, SUSPEND_TERMINAL, n.x, n.y)
    ensures ClosedUnderWaits(t, SUSPEND_TERMINAL, n.b, {n.x, n.y})
  {
    assert forall z, y :: Waits(t, SUSPEND_TERMINAL, z, y) ==> (y == n.y && z == n.x) || (y == n.x && z == n.b);
  }

  lemma BehindB(n: Trio, t: Slices)
    requires Apart(n) && t == Table(n, B(Status.Spawned, Some(0)), X(n, Pending, None, false), Y(n, Pending, None))
    ensures Dependents(t, SUSPEND_TERMINAL, n.b) == {n.x, n.y}
  {
    WaitsBehindB(n, t);
    hide Dependents, ClosedUnderWaits, Table;
    ReachDirectly(t, SUSPEND_TERMINAL, n.b, n.x);
    ReachFurther(t, SUSPEND_TERMINAL, n.b, n.x, n.y);
    DependentsAreLeast(t, SUSPEND_TERMINAL, n.b);
  }

  lemma BehindX(n: Trio, t: Slices)
    requires Apart(n)
    requires t == Table(n, B(Merged, Some(0)), X(n, Status.Spawned, Some(0), true), Y(n, Pending, Some(n.b)))
    ensures Dependents(t, SUSPEND_TERMINAL, n.x) == {n.y}
  {
    assert Waits(t, SUSPEND_TERMINAL, n.x, n.y);
    assert ClosedUnderWaits(t, SUSPEND_TERMINAL, n.x, {n.y}) by {
      assert forall z, y :: Waits(t, SUSPEND_TERMINAL, z, y) ==> (y == n.y && z == n.x) || (y == n.x && z == n.b);
    }
    hide Dependents, ClosedUnderWaits, Table;
    ReachDirectly(t, SUSPEND_TERMINAL, n.x, n.y);
    DependentsAreLeast(t, SUSPEND_TERMINAL, n.x);
  }

  lemma RecoveriesAre(n: Trio, glob: Glob, k: nat)
    requires Apart(n) && (k == 1 || k == 4)
    ensures Steps(n, glob, k)
  {
    hide Dependents;
    if k == 1 {
      var marked := T(n, 1)[n.b := T(n, 1)[n.b].(recovery := Some(0))];
      assert marked == Table(n, B(Status.Spawned, Some(0)), X(n, Pending, None, false), Y(n, Pending, None));
      BehindB(n, marked);
    } else {
      var marked := T(n, 4)[n.x := T(n, 4)[n.x].(recovery := Some(0))];
      assert marked == Table(n, B(Merged, Some(0)), X(n, Status.Spawned, Some(0), true), Y(n, Pending, Some(n.b)));
      BehindX(n, marked);
    }
  }

  lemma MergesAre(n: Trio, glob: Glob, k: nat)
    requires Apart(n) && (k == 2 || k == 6)
    ensures Steps(n, glob, k)
  {
  }

  lemma RestorationsAre(n: Trio, glob: Glob, k: nat)
    requires Apart(n) && (k == 5 || k == 8)
    ensures Steps(n, glob, k)
  {
  }

  function StepsUpTo(n: Trio, k: nat): seq<Step> {
    if k == 0 then [] else StepsUpTo(n, k - 1) + [S(n, k - 1)]
  }

  lemma {:induction false} RunsUpTo(n: Trio, glob: Glob, k: nat)
    requires Apart(n) && k <= 9
    ensures Run(T(n, 0), glob, StepsUpTo(n, k), T(n, k))
  {
    hide Enabled, Apply, T, S;
    if k > 0 {
      RunsUpTo(n, glob, k - 1);
      if k == 1 || k == 4 || k == 8 { SpawnsAre(n, glob, k - 1); }
      else if k == 2 || k == 5 { RecoveriesAre(n, glob, k - 1); }
      else if k == 3 || k == 7 { MergesAre(n, glob, k - 1); }
      else { RestorationsAre(n, glob, k - 1); }
      assert [S(n, k - 1)][1..] == [];
      RunJoined(T(n, 0), glob, StepsUpTo(n, k - 1), T(n, k - 1), [S(n, k - 1)], T(n, k));
    }
  }

  lemma ChainIsAcyclic(n: Trio)
    requires Apart(n)
    ensures Acyclic(DependencyEdges(T(n, 0)))
  {
    var e := DependencyEdges(T(n, 0));
    var rank := (i: Id) => if i == n.y then 2 else if i == n.x then 1 else 0;
    forall p ensures !IsCycle(e, p) {
      if IsCycle(e, p) {
        RankFalls(e, rank, p);
        assert false;
      }
    }
  }

  /** The last two tables of the run. */
  lemma TakenBackUnder(n: Trio, glob: Glob)
    requires Apart(n)
    ensures FreshPlan(T(n, 0))
    ensures n.y in T(n, 9) && Live(T(n, 9)[n.y].status) && n.x in T(n, 9)[n.y].dependsOn && !Met(T(n, 9), n.x)
    ensures n.y in T(n, 8) && Started(T(n, 8)[n.y].status) && n.x in T(n, 8)[n.y].dependsOn
    ensures n.x in TakenBack(T(n, 8), S(n, 8)) && n.y !in TakenBack(T(n, 8), S(n, 8))
    ensures !Sparing(T(n, 8), glob, S(n, 8))
  {
    assert n.x in Marked(T(n, 8), n.b) && n.y !in Marked(T(n, 8), n.b);
  }

  /**
   A run from a fresh acyclic plan that ends with a live slice whose dependency has not merged. `b` merges
   while it recovers, so `x` and then `y` are dispatched; when the recovery of `b` ends at last, it returns
   `x`, merged but still suspended behind `b`, to pending under the live `y`.
   */
  lemma LateRecoveryBreaksSafety(n: Trio, glob: Glob)
    requires Apart(n)
    ensures FreshPlan(T(n, 0)) && Acyclic(DependencyEdges(T(n, 0)))
    ensures Run(T(n, 0), glob, StepsUpTo(n, 9), T(n, 9))
    ensures n.y in T(n, 9) && Live(T(n, 9)[n.y].status) && n.x in T(n, 9)[n.y].dependsOn && !Met(T(n, 9), n.x)
    ensures !DependenciesFirst(T(n, 9)) && !Sparing(T(n, 8), glob, S(n, 8))
  {
    hide Run, T, S, TakenBack, Sparing, StepsUpTo;
    ChainIsAcyclic(n);
    RunsUpTo(n, glob, 9);
    TakenBackUnder(n, glob);
    hide Acyclic, FreshPlan;
  }
}
