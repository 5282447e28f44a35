/** What withholding means on the tables a run can reach, and on any table. */
module DeadEnds {
  import opened Prelude
  import opened Graphs
  import opened Slices
  import opened Schedule
  import opened ScheduleProperties
  import opened DispatchRuns

  // ---- what withholding means on reachable tables

  /** On a reachable table of an acyclic plan, a slice that can never merge has not been dispatched. */
  lemma DeadEndsAreNeverStarted(slices: Slices, glob: Glob, x: Id)
    requires Safe(slices, glob) && Acyclic(DependencyEdges(slices))
    requires x in slices && CanNeverMerge(slices, x, {})
    ensures !Started(slices[x].status)
  {
    if Started(slices[x].status) {
      var p := ToWalk(slices, x, {});
      var z := p[|p| - 1];
      if |p| >= 2 { MergedAllTheWay(slices, p); }
      var k :| 0 <= k < |p| - 1 && p[k] == z;
      WalkSlice(DependencyEdges(slices), p, k, |p|);
      assert IsCycle(DependencyEdges(slices), p[k..|p|]);
      assert false;
    }
  }

  /** `m` merged although its dependency `z` is gone, `a` waits for `m` and `b` for `a`. */
  function HandEdited(m: Id, a: Id, b: Id, z: Id): Slices {
    map[m := Slice(Merged, [], [z], None, None, None, None),
        a := Slice(Pending, [], [m], None, None, None, None),
        b := Slice(Pending, [], [a], None, None, None, None)]
  }

  /**
   The dead-end walk passes through merged slices too. On such a table withholding blocks a slice whose
   only prerequisite is ready to be dispatched.
   */
  lemma WithholdCanBlockBehindAReadySlice(m: Id, a: Id, b: Id, z: Id)
    requires m != a && m != b && m != z && a != b && a != z && b != z
    ensures var slices := HandEdited(m, a, b, z);
            && IsEligible(slices, a) && slices[b].dependsOn == [a]
            && IsPending(slices, b) && WithholdSpec(slices)[b].status.Blocked?
  {
    var slices := HandEdited(m, a, b, z);
    UnmetEmptyIff(slices, [m]);
    var p := [a, m, z];
    assert Walk(DependencyEdges(slices), p);
    assert DeadWalk(slices, {}, p);
    UnsatisfiableIff(slices, b, a);
    assert a in UnsatisfiableDependencies(slices, b);
  }

  /** A safe table on which `z` and `m` have merged. */
  function AllMergedBefore(m: Id, a: Id, b: Id, z: Id): Slices {
    HandEdited(m, a, b, z)[z := Slice(Merged, [], [], None, None, None, None)]
  }

  lemma AllMergedBeforeIsAcyclic(m: Id, a: Id, b: Id, z: Id)
    requires m != a && m != b && m != z && a != b && a != z && b != z
    ensures Acyclic(DependencyEdges(AllMergedBefore(m, a, b, z)))
  {
    var e := DependencyEdges(AllMergedBefore(m, a, b, z));
    var rank := (i: Id) => if i == b then 3 else if i == a then 2 else if i == m then 1 else 0;
    forall p ensures !IsCycle(e, p) {
      if IsCycle(e, p) {
        RankFalls(e, rank, p);
        assert false;
      }
    }
  }

  lemma AllMergedBeforeIsSafe(m: Id, a: Id, b: Id, z: Id, glob: Glob)
    requires m != a && m != b && m != z && a != b && a != z && b != z
    ensures Safe(AllMergedBefore(m, a, b, z), glob)
  {
  }

  lemma DeadMergedBlocks(slices: Slices, m: Id, a: Id, b: Id, z: Id)
    requires a in slices && slices[a].status.Pending? && slices[a].dependsOn == [m]
    requires b in slices && slices[b].status.Pending? && slices[b].dependsOn == [a]
    requires m in slices && slices[m].status.Merged? && slices[m].dependsOn == [z]
    requires z in slices && Dead(slices[z].status) && m != z && a != z && a != m
    ensures IsEligible(slices, a) && IsPending(slices, b) && WithholdSpec(slices)[b].status.Blocked?
  {
    UnmetEmptyIff(slices, [m]);
    var p := [a, m, z];
    assert Walk(DependencyEdges(slices), p);
    assert DeadWalk(slices, {}, p);
    UnsatisfiableIff(slices, b, a);
    assert a in UnsatisfiableDependencies(slices, b);
  }

  /** No editing is needed: from a safe acyclic table, observing the failure of the merged `z` is enough. */
  lemma FailureOfAMergedSliceBlocksBehindAReadyOne(m: Id, a: Id, b: Id, z: Id, glob: Glob)
    requires m != a && m != b && m != z && a != b && a != z && b != z
    ensures var before := AllMergedBefore(m, a, b, z);
            && Safe(before, glob) && Acyclic(DependencyEdges(before)) && Enabled(before, glob, Observe(z, Failed))
    ensures var slices := Apply(AllMergedBefore(m, a, b, z), Observe(z, Failed));
            && IsEligible(slices, a) && b in slices && slices[b].dependsOn == [a]
            && IsPending(slices, b) && WithholdSpec(slices)[b].status.Blocked?
  {
    AllMergedBeforeIsAcyclic(m, a, b, z);
    AllMergedBeforeIsSafe(m, a, b, z, glob);
    hide Acyclic, Safe, WithholdSpec, IsEligible;
    DeadMergedBlocks(Apply(AllMergedBefore(m, a, b, z), Observe(z, Failed)), m, a, b, z);
  }

  /** On a safe table of an acyclic plan that never happens: nothing is withheld behind a dispatched or merged slice. */
  lemma WithheldPrerequisiteNeverRuns(slices: Slices, glob: Glob, x: Id)
    requires Safe(slices, glob) && Acyclic(DependencyEdges(slices))
    requires IsPending(slices, x) && WithholdSpec(slices)[x].status.Blocked?
    ensures var d := WithholdSpec(slices)[x].blockedBy;
            && d.Some? && d.value in slices[x].dependsOn
            && (d.value in slices ==> !Started(slices[d.value].status) && !IsEligible(slices, d.value))
  {
    var blockers := UnsatisfiableDependencies(slices, x);
    var d := blockers[0];
    assert d in blockers;
    UnsatisfiableIff(slices, x, d);
    NeverMergesIff(slices, d);
    if d in slices {
      DeadEndsAreNeverStarted(slices, glob, d);
      if IsEligible(slices, d) {
        EligibleIsNoDeadEnd(slices, glob, d);
      }
    }
  }

  lemma EligibleIsNoDeadEnd(slices: Slices, glob: Glob, d: Id)
    requires Safe(slices, glob) && Acyclic(DependencyEdges(slices)) && IsEligible(slices, d)
    ensures !CanNeverMerge(slices, d, {})
  {
    if CanNeverMerge(slices, d, {}) {
      var p := ToWalk(slices, d, {});
      UnmetIff(slices, slices[d].dependsOn);
      if |p| == 1 {
        assert false;
      }
      assert p[1] in Targets(DependencyEdges(slices), p[0]);
      assert Met(slices, p[1]);
      var z := p[|p| - 1];
      if |p| > 2 {
        WalkSlice(DependencyEdges(slices), p, 1, |p|);
        MergedAllTheWay(slices, p[1..|p|]);
      }
      var k :| 0 <= k < |p| - 1 && p[k] == z;
      WalkSlice(DependencyEdges(slices), p, k, |p|);
      assert IsCycle(DependencyEdges(slices), p[k..|p|]);
      assert false;
    }
  }

  /** On any table, a ready slice is a dead end exactly when one of its merged dependencies is one. */
  lemma ReadyDeadEndIff(slices: Slices, d: Id)
    requires IsEligible(slices, d)
    ensures CanNeverMerge(slices, d, {})
       <==> exists m :: m in slices[d].dependsOn && Met(slices, m) && CanNeverMerge(slices, m, {})
  {
    UnmetEmptyIff(slices, slices[d].dependsOn);
    if CanNeverMerge(slices, d, {}) {
      var p := ToWalk(slices, d, {});
      var m := MergedDeadEnd(slices, d, p);
    }
    if m :| m in slices[d].dependsOn && CanNeverMerge(slices, m, {}) {
      var q := ToWalk(slices, m, {});
      ExtendWalk(DependencyEdges(slices), d, q);
      var p := [d] + q;
      assert p[..|p| - 1] == [d] + q[..|q| - 1];
      assert DeadWalk(slices, {}, p);
      FromWalk(slices, p, {});
    }
  }

  /** The dead walk from a ready slice goes on from one of its dependencies, or comes back to the slice itself. */
  lemma MergedDeadEnd(slices: Slices, d: Id, p: seq<Id>) returns (m: Id)
    requires IsPending(slices, d) && DeadWalk(slices, {}, p) && p[0] == d
    ensures m in slices[d].dependsOn && CanNeverMerge(slices, m, {})
  {
    var e := DependencyEdges(slices);
    assert |p| >= 2;
    m := p[1];
    var q := p[1..];
    var z := p[|p| - 1];
    WalkSlice(e, p, 1, |p|);
    assert p[1..|p|] == q;
    assert p[..|p| - 1] == [d] + q[..|q| - 1];
    if z in slices && !Dead(slices[z].status) && z !in q[..|q| - 1] {
      assert z == d;
      JoinWalks(e, q, [m]);
      var r := q + [m];
      assert r[|r| - 1] == m && r[0] == m && r[..|r| - 1] == q;
      assert m in q;
      FromWalk(slices, r, {});
    } else {
      FromWalk(slices, q, {});
    }
  }

  /** So withholding blames a ready prerequisite exactly when that prerequisite rests on a merged dead end. */
  lemma WithheldBehindReadyIff(slices: Slices, x: Id, d: Id)
    requires IsPending(slices, x) && d in slices[x].dependsOn && IsEligible(slices, d)
    ensures d in UnsatisfiableDependencies(slices, x)
       <==> exists m :: m in slices[d].dependsOn && Met(slices, m) && CanNeverMerge(slices, m, {})
  {
    ReadyDeadEndIff(slices, d);
    NeverMergesIff(slices, d);
    UnsatisfiableIff(slices, x, d);
  }
}
