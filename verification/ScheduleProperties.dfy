/** What the scheduler's operations mean together. */
module ScheduleProperties {
  import opened Prelude
  import opened Graphs
  import opened Slices
  import opened Schedule

  // ---- suspend and restore

  /** Two tables with the same edges and the same terminal slices have the same dependents. */
  lemma DependentsStable(a: Slices, b: Slices, terminal: set<Status>, blocker: Id)
    requires a.Keys == b.Keys
    requires forall x :: x in a ==>
               a[x].dependsOn == b[x].dependsOn && (a[x].status in terminal <==> b[x].status in terminal)
    ensures Dependents(a, terminal, blocker) == Dependents(b, terminal, blocker)
  {
    assert forall y, x :: Waits(a, terminal, y, x) <==> Waits(b, terminal, y, x);
    forall p ensures Chain(a, terminal, blocker, p) <==> Chain(b, terminal, blocker, p) {
      if Chain(a, terminal, blocker, p) {
        forall i, j | 0 <= i < j < |p| && j == i + 1 ensures Waits(b, terminal, p[i], p[j]) {
          assert Waits(a, terminal, p[i], p[j]);
        }
      }
      if Chain(b, terminal, blocker, p) {
        forall i, j | 0 <= i < j < |p| && j == i + 1 ensures Waits(a, terminal, p[i], p[j]) {
          assert Waits(b, terminal, p[i], p[j]);
        }
      }
    }
    forall x ensures x in Dependents(a, terminal, blocker) <==> x in Dependents(b, terminal, blocker) {
      if x in Dependents(a, terminal, blocker) {
        var p :| Chain(a, terminal, blocker, p) && p[|p| - 1] == x;
        assert Chain(b, terminal, blocker, p);
      }
      if x in Dependents(b, terminal, blocker) {
        var p :| Chain(b, terminal, blocker, p) && p[|p| - 1] == x;
        assert Chain(a, terminal, blocker, p);
      }
    }
  }

  lemma DependentIsNotTerminal(slices: Slices, terminal: set<Status>, b: Id, x: Id)
    requires x in Dependents(slices, terminal, b)
    ensures x in slices && slices[x].status !in terminal
    ensures exists y :: Waits(slices, terminal, y, x) && (y == b || y in Dependents(slices, terminal, b))
  {
    var p :| Chain(slices, terminal, b, p) && p[|p| - 1] == x;
    var k := |p| - 2;
    assert Waits(slices, terminal, p[k], p[k + 1]);
    if k > 0 {
      var q := p[..k + 1];
      forall i, j | 0 <= i < j < |q| && j == i + 1 ensures Waits(slices, terminal, q[i], q[j]) {
        assert Waits(slices, terminal, p[i], p[j]);
      }
      assert Chain(slices, terminal, b, q) && q[|q| - 1] == p[k];
      assert Waits(slices, terminal, p[k - 1], p[k]);
    }
  }

  /** Reapplying the same recovery signal is a no-op. */
  lemma SuspendTwice(slices: Slices, b: Id, generation: nat)
    ensures SuspendSpec(SuspendSpec(slices, b, generation), b, generation) == SuspendSpec(slices, b, generation)
  {
    var once := SuspendSpec(slices, b, generation);
    var held := Dependents(slices, SUSPEND_TERMINAL, b);
    forall x | x in held ensures slices[x].status !in SUSPEND_TERMINAL {
      DependentIsNotTerminal(slices, SUSPEND_TERMINAL, b, x);
    }
    DependentsStable(slices, once, SUSPEND_TERMINAL, b);
  }

  function RecoveryCleared(slices: Slices, b: Id): Slices {
    if b in slices then slices[b := slices[b].(recovery := None)] else slices
  }

  /** No dependent is already suspended, and nobody else carries this blocker's mark. */
  ghost predicate Unmarked(slices: Slices, b: Id, generation: nat) {
    forall x :: x in slices ==>
      if x in Dependents(slices, SUSPEND_TERMINAL, b) then slices[x].suspended.None?
      else !SuspendedFor(slices[x], b, generation)
  }

  /** Suspending and then recovering gives the slices back exactly when nothing was marked before. */
  lemma RestoreUndoesSuspend(slices: Slices, b: Id, generation: nat)
    requires b in slices
    ensures RestoreSpec(RecoveryCleared(SuspendSpec(slices, b, generation), b), b, generation)
         == RecoveryCleared(slices, b)
        <==> Unmarked(slices, b, generation)
  {
    var held := Dependents(slices, SUSPEND_TERMINAL, b);
    var back := RestoreSpec(RecoveryCleared(SuspendSpec(slices, b, generation), b), b, generation);
    var goal := RecoveryCleared(slices, b);
    assert back.Keys == goal.Keys == slices.Keys;
    forall x | x in slices
      ensures back[x] == goal[x] <==>
              if x in held then slices[x].suspended.None? else !SuspendedFor(slices[x], b, generation)
    {
    }
    if back == goal {
      forall x | x in slices
        ensures if x in held then slices[x].suspended.None? else !SuspendedFor(slices[x], b, generation)
      {
        assert back[x] == goal[x];
      }
    }
  }

  // ---- prerequisites that can never merge

  /** A dependency walk that ends in an absent slice, a dead one, a visited one, or on itself. */
  ghost predicate DeadWalk(slices: Slices, visiting: set<Id>, p: seq<Id>) {
    && Walk(DependencyEdges(slices), p)
    && var z := p[|p| - 1];
       z !in slices || Dead(slices[z].status) || z in visiting || z in p[..|p| - 1]
  }

  lemma {:induction false} AnyIff(slices: Slices, deps: seq<Id>, visiting: set<Id>)
    ensures AnyCanNeverMerge(slices, deps, visiting)
       <==> exists d :: d in deps && CanNeverMerge(slices, d, visiting)
  {
    if deps != [] {
      AnyIff(slices, deps[1..], visiting);
      assert deps == [deps[0]] + deps[1..];
      if CanNeverMerge(slices, deps[0], visiting) {
        assert deps[0] in deps;
      } else if AnyCanNeverMerge(slices, deps[1..], visiting) {
        var d :| d in deps[1..] && CanNeverMerge(slices, d, visiting);
        assert d in deps;
      }
    }
  }

  lemma {:induction false} ToWalk(slices: Slices, x: Id, visiting: set<Id>) returns (p: seq<Id>)
    requires CanNeverMerge(slices, x, visiting)
    ensures DeadWalk(slices, visiting, p) && p[0] == x
    decreases slices.Keys - visiting
  {
    if x in visiting || x !in slices || Dead(slices[x].status) {
      p := [x];
    } else {
      AnyIff(slices, slices[x].dependsOn, visiting + {x});
      var d :| d in slices[x].dependsOn && CanNeverMerge(slices, d, visiting + {x});
      assert x in slices.Keys - visiting;
      var q := ToWalk(slices, d, visiting + {x});
      ExtendWalk(DependencyEdges(slices), x, q);
      p := [x] + q;
      var z := q[|q| - 1];
      assert p[..|p| - 1] == [x] + q[..|q| - 1];
    }
  }

  lemma {:induction false} FromWalk(slices: Slices, p: seq<Id>, visiting: set<Id>)
    requires DeadWalk(slices, visiting, p)
    ensures CanNeverMerge(slices, p[0], visiting)
    decreases |p|
  {
    var x := p[0];
    if !(x in visiting || x !in slices || Dead(slices[x].status)) {
      var q := p[1..];
      assert |p| >= 2;
      WalkSlice(DependencyEdges(slices), p, 1, |p|);
      assert p[1..|p|] == q;
      assert p[..|p| - 1] == [x] + q[..|q| - 1];
      FromWalk(slices, q, visiting + {x});
      AnyIff(slices, slices[x].dependsOn, visiting + {x});
      assert p[1] in Targets(DependencyEdges(slices), p[0]);
    }
  }

  /** The path-set recursion finds exactly the slices from which a dead end or a cycle can be walked to. */
  lemma NeverMergesIff(slices: Slices, x: Id)
    ensures CanNeverMerge(slices, x, {}) <==> exists p :: DeadWalk(slices, {}, p) && p[0] == x
  {
    if CanNeverMerge(slices, x, {}) {
      var p := ToWalk(slices, x, {});
    }
    forall p | DeadWalk(slices, {}, p) && p[0] == x ensures CanNeverMerge(slices, x, {}) {
      FromWalk(slices, p, {});
    }
  }

  lemma {:induction false} UnmetIff(slices: Slices, deps: seq<Id>)
    ensures forall d :: d in Unmet(slices, deps) <==> d in deps && !Met(slices, d)
  {
    if deps != [] {
      UnmetIff(slices, deps[1..]);
      assert deps == [deps[0]] + deps[1..];
    }
  }

  lemma {:induction false} UnmetEmptyIff(slices: Slices, deps: seq<Id>)
    ensures Unmet(slices, deps) == [] <==> forall d :: d in deps ==> Met(slices, d)
  {
    if deps != [] {
      UnmetEmptyIff(slices, deps[1..]);
      assert deps == [deps[0]] + deps[1..];
    }
  }

  lemma {:induction false} StuckIff(slices: Slices, deps: seq<Id>)
    ensures forall d :: d in Stuck(slices, deps) <==> d in deps && CanNeverMerge(slices, d, {})
  {
    if deps != [] {
      StuckIff(slices, deps[1..]);
      assert deps == [deps[0]] + deps[1..];
    }
  }

  /** A slice has an unsatisfiable edge exactly when one of its unmerged prerequisites is a dead end. */
  lemma UnsatisfiableIff(slices: Slices, x: Id, d: Id)
    requires x in slices
    ensures d in UnsatisfiableDependencies(slices, x)
       <==> d in slices[x].dependsOn && !Met(slices, d) && exists p :: DeadWalk(slices, {}, p) && p[0] == d
  {
    UnmetIff(slices, slices[x].dependsOn);
    StuckIff(slices, Unmet(slices, slices[x].dependsOn));
    NeverMergesIff(slices, d);
  }

  lemma JoinWalks(e: Edges, p: seq<Id>, q: seq<Id>)
    requires Walk(e, p) && Walk(e, q) && q[0] in Targets(e, p[|p| - 1])
    ensures Walk(e, p + q)
  {
    var r := p + q;
    forall i, j | 0 <= i < j < |r| && j == i + 1 ensures r[j] in Targets(e, r[i]) {
      if j < |p| { assert r[i] == p[i] && r[j] == p[j]; }
      else if i >= |p| { assert r[i] == q[i - |p|] && r[j] == q[j - |p|]; }
    }
  }

  /** Blocking the withheld slices opens no new dead end. */
  lemma DeadEndsDoNotSpread(slices: Slices, d: Id)
    ensures CanNeverMerge(WithholdSpec(slices), d, {}) ==> CanNeverMerge(slices, d, {})
  {
    var after := WithholdSpec(slices);
    if CanNeverMerge(after, d, {}) {
      var p := ToWalk(after, d, {});
      var z := p[|p| - 1];
      assert DependencyEdges(after) == DependencyEdges(slices);
      if z in slices && Dead(after[z].status) && !Dead(slices[z].status) {
        var blockers := UnsatisfiableDependencies(slices, z);
        var e := blockers[0];
        UnmetIff(slices, slices[z].dependsOn);
        StuckIff(slices, Unmet(slices, slices[z].dependsOn));
        assert e in blockers;
        var q := ToWalk(slices, e, {});
        JoinWalks(DependencyEdges(slices), p, q);
        var r := p + q;
        assert r[|r| - 1] == q[|q| - 1];
        assert r[..|r| - 1] == p + q[..|q| - 1];
        assert DeadWalk(slices, {}, r);
        FromWalk(slices, r, {});
      } else {
        assert DeadWalk(slices, {}, p);
        FromWalk(slices, p, {});
      }
    }
  }

  lemma {:induction false} UnmetSame(a: Slices, b: Slices, deps: seq<Id>)
    requires forall d :: Met(a, d) <==> Met(b, d)
    ensures Unmet(a, deps) == Unmet(b, deps)
  {
    if deps != [] { UnmetSame(a, b, deps[1..]); }
  }

  lemma NothingLeftToWithhold(slices: Slices, x: Id)
    requires x in slices && WithholdSpec(slices)[x].status.Pending?
    ensures UnsatisfiableDependencies(WithholdSpec(slices), x) == []
  {
    var after := WithholdSpec(slices);
    var deps := slices[x].dependsOn;
    assert after[x] == slices[x];
    UnmetSame(after, slices, deps);
    StuckIff(slices, Unmet(slices, deps));
    StuckIff(after, Unmet(slices, deps));
    var stuck := UnsatisfiableDependencies(after, x);
    if stuck != [] {
      assert stuck[0] in stuck;
      DeadEndsDoNotSpread(slices, stuck[0]);
      assert false;
    }
  }

  /** One pass of withholding is a fixpoint. */
  lemma WithholdTwice(slices: Slices)
    ensures WithholdSpec(WithholdSpec(slices)) == WithholdSpec(slices)
  {
    var after := WithholdSpec(slices);
    forall x | x in after ensures Withheld(after, x) == after[x] {
      if after[x].status.Pending? { NothingLeftToWithhold(slices, x); }
    }
  }

  /** After a withholding pass the scheduler never reports a deadlock, at any width. */
  lemma WithheldNeverDeadlocks(slices: Slices, order: seq<Id>, width: Option<int>, glob: Glob)
    ensures !ReadySpec(WithholdSpec(slices), order, width, glob).Deadlock?
  {
    var after := WithholdSpec(slices);
    forall x | x in after ensures !(IsPending(after, x) && UnsatisfiableDependencies(after, x) != []) {
      if after[x].status.Pending? { NothingLeftToWithhold(slices, x); }
    }
    assert DeadPending(after) == map[];
  }

  // ---- selection

  predicate Clear(slices: Slices, glob: Glob, x: Id, others: set<Id>)
    requires x in slices
  {
    !CollidesWithAny(slices, glob, x, others)
  }

  ghost predicate PairwiseClear(slices: Slices, glob: Glob, s: seq<Id>) {
    forall i, j :: 0 <= i < j < |s| ==> s[i] in slices && s[j] in slices && !Collide(glob, slices[s[j]], slices[s[i]])
  }

  /** The greedy pass: what it takes, that it takes nothing in conflict, and that it leaves nothing it could take. */
  lemma {:induction false} GreedyFacts(slices: Slices, glob: Glob, candidates: seq<Id>, capacity: Option<nat>,
                                       taken: seq<Id>)
    requires forall x :: x in candidates || x in taken ==> x in slices
    requires PairwiseClear(slices, glob, taken)
    requires forall x :: x in taken ==> Clear(slices, glob, x, Occupied(slices))
    ensures var r := Greedy(slices, glob, candidates, capacity, taken);
            && taken <= r
            && (forall x :: x in r ==> x in taken || x in candidates)
            && PairwiseClear(slices, glob, r)
            && (forall x :: x in r ==> Clear(slices, glob, x, Occupied(slices)))
            && (capacity.Some? && |taken| <= capacity.value ==> |r| <= capacity.value)
            && (forall x :: x in candidates && x !in r ==>
                  (capacity.Some? && |r| >= capacity.value)
                  || CollidesWithAny(slices, glob, x, Occupied(slices) + Elements(r)))
    decreases |candidates|
  {
    if candidates == [] || (capacity.Some? && |taken| >= capacity.value) {
    } else {
      var c := candidates[0];
      assert candidates == [c] + candidates[1..];
      if CollidesWithAny(slices, glob, c, Occupied(slices) + Elements(taken)) {
        GreedyFacts(slices, glob, candidates[1..], capacity, taken);
        var r := Greedy(slices, glob, candidates, capacity, taken);
        assert Elements(taken) <= Elements(r) by {
          forall x | x in taken ensures x in r {
            var i :| 0 <= i < |taken| && taken[i] == x;
            assert r[i] == x;
          }
        }
      } else {
        var more := taken + [c];
        assert Elements(more) == Elements(taken) + {c};
        forall i, j | 0 <= i < j < |more|
          ensures more[i] in slices && more[j] in slices && !Collide(glob, slices[more[j]], slices[more[i]])
        {
          if j == |taken| { assert more[i] in Elements(taken); }
        }
        GreedyFacts(slices, glob, candidates[1..], capacity, more);
        var r := Greedy(slices, glob, candidates, capacity, taken);
        assert r[|taken|] == c;
      }
    }
  }

  /** The slices that take a place of the width: spawned, in review or under repair, and not recovering. */
  function Places(slices: Slices): set<Id> {
    set x | x in slices && slices[x].status in {Status.Spawned, InReview, Repairing} && slices[x].recovery == None
  }

  lemma PlacesAreActive(slices: Slices)
    ensures Active(slices) == Places(slices)
  {
  }

  /** The meaning of a successful readiness answer. */
  lemma ReadyFacts(slices: Slices, order: seq<Id>, width: Option<int>, glob: Glob)
    requires Enumerates(order, slices.Keys)
    requires ReadySpec(slices, order, width, glob).Selected?
    ensures var ids := ReadySpec(slices, order, width, glob).ids;
            && (forall x :: x in ids ==>
                  IsPending(slices, x) && forall d :: d in slices[x].dependsOn ==> Met(slices, d))
            && (forall x :: x in ids ==> Clear(slices, glob, x, Occupied(slices)))
            && PairwiseClear(slices, glob, ids)
            && (width.Some? ==> |Places(slices)| + |ids| <= Max(|Places(slices)|, width.value))
            && (forall x :: IsEligible(slices, x) && x !in ids ==>
                  (width.Some? && |Places(slices)| + |ids| >= width.value)
                  || CollidesWithAny(slices, glob, x, Occupied(slices) + Elements(ids)))
  {
    PlacesAreActive(slices);
    var eligible := Eligible(slices, order);
    if Capacity(slices, width) != Some(0) {
      GreedyFacts(slices, glob, eligible, Capacity(slices, width), []);
      var ids := ReadySpec(slices, order, width, glob).ids;
      forall x | x in ids ensures forall d :: d in slices[x].dependsOn ==> Met(slices, d) {
        UnmetIff(slices, slices[x].dependsOn);
        assert IsEligible(slices, x);
      }
      forall x | IsEligible(slices, x) ensures x in eligible {
        assert x in slices.Keys;
      }
    }
  }

  lemma DeadPendingIff(slices: Slices)
    ensures DeadPending(slices) != map[] <==>
            exists x :: IsPending(slices, x) && UnsatisfiableDependencies(slices, x) != []
  {
    if x :| IsPending(slices, x) && UnsatisfiableDependencies(slices, x) != [] {
      assert x in DeadPending(slices);
    }
    if DeadPending(slices) != map[] {
      var x :| x in DeadPending(slices);
      assert IsPending(slices, x);
    }
  }

  lemma EligibleEmptyIff(slices: Slices, order: seq<Id>)
    requires Enumerates(order, slices.Keys)
    ensures Eligible(slices, order) == [] <==> forall x :: !IsEligible(slices, x)
  {
    var eligible := Eligible(slices, order);
    forall x | IsEligible(slices, x) ensures x in eligible { assert x in slices.Keys; }
    if eligible != [] { assert eligible[0] in eligible; }
  }

  lemma CapacityWhenIdle(slices: Slices, width: Option<int>)
    requires Occupied(slices) == {}
    ensures Capacity(slices, width) == Some(0) <==> width.Some? && width.value <= 0
  {
    assert Active(slices) <= Occupied(slices);
    assert |Active(slices)| == 0;
  }

  /**
   A deadlock is reported exactly when the width allows a spawn, nothing is live, no pending slice
   is ready, and some pending slice waits on a prerequisite that can never merge.
   */
  lemma DeadlockMeans(slices: Slices, order: seq<Id>, width: Option<int>, glob: Glob)
    requires Enumerates(order, slices.Keys)
    ensures ReadySpec(slices, order, width, glob).Deadlock? <==>
              && (width.Some? ==> width.value > 0)
              && Occupied(slices) == {}
              && (forall x :: !IsEligible(slices, x))
              && (exists x :: IsPending(slices, x) && UnsatisfiableDependencies(slices, x) != [])
  {
    DeadPendingIff(slices);
    EligibleEmptyIff(slices, order);
    if Occupied(slices) == {} { CapacityWhenIdle(slices, width); }
  }
}
