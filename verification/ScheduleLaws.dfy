/** What readiness, suspension, abandonment, withholding and parking do, in the records' own fields. */
module ScheduleLaws {
  import opened Prelude
  import opened Graphs
  import opened Slices
  import opened Schedule
  import opened ScheduleProperties
  import opened Parking

  // ---- readiness looks at statuses, dependencies and paths, and at the width that is left

  /** The tables differ at most in fields that readiness does not look at. */
  predicate SameSchedule(a: Slices, b: Slices) {
    a.Keys == b.Keys
    && forall x | x in a ::
         a[x].status == b[x].status && a[x].dependsOn == b[x].dependsOn && a[x].paths == b[x].paths
  }

  lemma {:induction false} SameUnmet(a: Slices, b: Slices, deps: seq<Id>)
    requires SameSchedule(a, b)
    ensures Unmet(a, deps) == Unmet(b, deps)
  {
    if deps != [] { SameUnmet(a, b, deps[1..]); }
  }

  lemma SameNeverMerges(a: Slices, b: Slices, x: Id)
    requires SameSchedule(a, b)
    ensures CanNeverMerge(a, x, {}) <==> CanNeverMerge(b, x, {})
  {
    NeverMergesIff(a, x);
    NeverMergesIff(b, x);
    assert DependencyEdges(a) == DependencyEdges(b);
    assert forall p :: DeadWalk(a, {}, p) <==> DeadWalk(b, {}, p);
  }

  lemma {:induction false} SameStuck(a: Slices, b: Slices, deps: seq<Id>)
    requires SameSchedule(a, b)
    ensures Stuck(a, deps) == Stuck(b, deps)
  {
    if deps != [] {
      SameNeverMerges(a, b, deps[0]);
      SameStuck(a, b, deps[1..]);
    }
  }

  lemma SameDeadPending(a: Slices, b: Slices)
    requires SameSchedule(a, b)
    ensures DeadPending(a) == DeadPending(b)
  {
    forall x | x in a
      ensures Unmet(a, a[x].dependsOn) == Unmet(b, b[x].dependsOn)
      ensures UnsatisfiableDependencies(a, x) == UnsatisfiableDependencies(b, x)
    {
      SameUnmet(a, b, a[x].dependsOn);
      SameStuck(a, b, Unmet(a, a[x].dependsOn));
    }
  }

  lemma {:induction false} SameEligible(a: Slices, b: Slices, order: seq<Id>)
    requires SameSchedule(a, b)
    ensures Eligible(a, order) == Eligible(b, order)
  {
    if order != [] {
      if order[0] in a { SameUnmet(a, b, a[order[0]].dependsOn); }
      SameEligible(a, b, order[1..]);
    }
  }

  lemma SameCollisions(a: Slices, b: Slices, glob: Glob, x: Id, others: set<Id>)
    requires SameSchedule(a, b) && x in a
    ensures CollidesWithAny(a, glob, x, others) <==> CollidesWithAny(b, glob, x, others)
  {
    assert forall y :: y in a ==> (Collide(glob, a[x], a[y]) <==> Collide(glob, b[x], b[y]));
  }

  lemma {:induction false} SameGreedy(a: Slices, b: Slices, glob: Glob, candidates: seq<Id>, capacity: Option<nat>,
                                      taken: seq<Id>)
    requires SameSchedule(a, b) && forall x :: x in candidates ==> x in a
    ensures Greedy(a, glob, candidates, capacity, taken) == Greedy(b, glob, candidates, capacity, taken)
    decreases |candidates|
  {
    assert Occupied(a) == Occupied(b);
    if candidates != [] {
      SameCollisions(a, b, glob, candidates[0], Occupied(a) + Elements(taken));
      SameGreedy(a, b, glob, candidates[1..], capacity, taken);
      SameGreedy(a, b, glob, candidates[1..], capacity, taken + [candidates[0]]);
    }
  }

  lemma SameReadiness(a: Slices, b: Slices, order: seq<Id>, v: int, w: int, glob: Glob)
    requires SameSchedule(a, b) && v >= 0 && w >= 0 && Capacity(a, Some(v)) == Capacity(b, Some(w))
    ensures ReadySpec(a, order, Some(v), glob) == ReadySpec(b, order, Some(w), glob)
  {
    SameEligible(a, b, order);
    SameGreedy(a, b, glob, Eligible(a, order), Capacity(a, Some(v)), []);
    SameDeadPending(a, b);
    assert Occupied(a) == Occupied(b);
    hide Eligible, Greedy, DeadPending, Capacity, Occupied;
  }

  /** A live slice that starts to recover gives back its place: the width then counts for one more. */
  lemma RecoveringFreesAPlace(slices: Slices, order: seq<Id>, w: int, glob: Glob, b: Id, round: nat)
    requires b in slices && slices[b].recovery.None? && w >= 0
    requires slices[b].status == Status.Spawned || slices[b].status == InReview || slices[b].status == Repairing
    ensures var recovering := slices[b := slices[b].(recovery := Some(round))];
            ReadySpec(recovering, order, Some(w), glob) == ReadySpec(slices, order, Some(w + 1), glob)
  {
    var recovering := slices[b := slices[b].(recovery := Some(round))];
    assert Active(slices) == Active(recovering) + {b} && b !in Active(recovering);
    SameReadiness(recovering, slices, order, w, w + 1, glob);
  }

  /** The statuses that hold paths, and with no recovery also a place. */
  const HOLDING: set<Status> := {Status.Spawned, InReview, Repairing}

  predicate PathsApart(glob: Glob, a: Slice, b: Slice) {
    forall i, j | 0 <= i < |a.paths| && 0 <= j < |b.paths| ::
      a.paths[i] != b.paths[j] && !glob(a.paths[i], b.paths[j]) && !glob(b.paths[j], a.paths[i])
  }

  lemma PathsApartIff(glob: Glob, a: Slice, b: Slice)
    ensures PathsApart(glob, a, b) <==> !Collide(glob, a, b)
  {
    if PathsApart(glob, a, b) {
      assert !Collide(glob, a, b);
    } else {
      var i, j :| 0 <= i < |a.paths| && 0 <= j < |b.paths|
                  && !(a.paths[i] != b.paths[j] && !glob(a.paths[i], b.paths[j]) && !glob(b.paths[j], a.paths[i]));
      assert Overlap(glob, a.paths[i], b.paths[j]);
    }
  }

  /** Readiness in the statuses themselves: whom it selects, what they wait for, whose paths and places they respect. */
  lemma ReadyByStatus(slices: Slices, order: seq<Id>, width: Option<int>, glob: Glob)
    requires Enumerates(order, slices.Keys)
    ensures ReadySpec(slices, order, width, glob).NegativeWidth? <==> width.Some? && width.value < 0
    ensures ReadySpec(slices, order, width, glob).Selected? ==>
              var ids := ReadySpec(slices, order, width, glob).ids;
              && (forall x :: x in ids ==> x in slices && slices[x].status == Pending)
              && (forall x, d :: x in ids && d in slices[x].dependsOn ==> d in slices && slices[d].status == Merged)
              && (forall x, y :: x in ids && y in slices && slices[y].status in HOLDING ==>
                    PathsApart(glob, slices[x], slices[y]))
              && (width.Some? ==> |Places(slices)| + |ids| <= Max(|Places(slices)|, width.value))
  {
    if ReadySpec(slices, order, width, glob).Selected? {
      ReadyFacts(slices, order, width, glob);
      var ids := ReadySpec(slices, order, width, glob).ids;
      hide ReadySpec, PairwiseClear;
      forall x, y | x in ids && y in slices && slices[y].status in HOLDING
        ensures PathsApart(glob, slices[x], slices[y]) {
        assert y in Occupied(slices) && Clear(slices, glob, x, Occupied(slices));
        PathsApartIff(glob, slices[x], slices[y]);
      }
    }
  }

  // ---- first come, first served

  /** What the greedy pass has taken when it gets to candidate k. */
  function TakenBefore(slices: Slices, glob: Glob, candidates: seq<Id>, capacity: Option<nat>, k: nat): seq<Id>
    requires k <= |candidates| && forall x :: x in candidates ==> x in slices
  {
    Greedy(slices, glob, candidates[..k], capacity, [])
  }

  lemma {:induction false} GreedyOneMore(slices: Slices, glob: Glob, candidates: seq<Id>, c: Id, capacity: Option<nat>,
                                         taken: seq<Id>)
    requires (forall x :: x in candidates ==> x in slices) && c in slices
    ensures var before := Greedy(slices, glob, candidates, capacity, taken);
            Greedy(slices, glob, candidates + [c], capacity, taken)
            == if (capacity.Some? && |before| >= capacity.value)
                  || CollidesWithAny(slices, glob, c, Occupied(slices) + Elements(before))
               then before else before + [c]
    decreases |candidates|
  {
    if candidates == [] {
      assert candidates + [c] == [c] && [c][1..] == [];
    } else {
      assert (candidates + [c])[1..] == candidates[1..] + [c] && (candidates + [c])[0] == candidates[0];
      GreedyOneMore(slices, glob, candidates[1..], c, capacity, taken);
      GreedyOneMore(slices, glob, candidates[1..], c, capacity, taken + [candidates[0]]);
    }
  }

  /**
   Each eligible slice in turn is selected exactly when a place is left and its paths are apart from those of
   the live slices and of the ones selected before it; so the selection keeps the order of the plan.
   */
  lemma FirstComeFirstServed(slices: Slices, glob: Glob, candidates: seq<Id>, capacity: Option<nat>, k: nat)
    requires k < |candidates| && forall x :: x in candidates ==> x in slices
    ensures var before := TakenBefore(slices, glob, candidates, capacity, k);
            var free := (capacity.Some? ==> |before| < capacity.value)
                        && forall y :: y in slices && (slices[y].status in HOLDING || y in before) ==>
                             PathsApart(glob, slices[candidates[k]], slices[y]);
            TakenBefore(slices, glob, candidates, capacity, k + 1) == if free then before + [candidates[k]] else before
  {
    hide Greedy, Collide;
    var c := candidates[k];
    var before := TakenBefore(slices, glob, candidates, capacity, k);
    assert candidates[..k + 1] == candidates[..k] + [c];
    GreedyOneMore(slices, glob, candidates[..k], c, capacity, []);
    forall y | y in slices ensures PathsApart(glob, slices[c], slices[y]) <==> !Collide(glob, slices[c], slices[y]) {
      PathsApartIff(glob, slices[c], slices[y]);
    }
    assert forall y :: y in Occupied(slices) + Elements(before) <==>
                         (y in slices && slices[y].status in HOLDING) || y in before;
    hide PathsApart;
  }

  /** A readiness answer is that pass over all eligible slices. */
  lemma SelectionIsTheWholePass(slices: Slices, order: seq<Id>, width: Option<int>, glob: Glob)
    requires ReadySpec(slices, order, width, glob).Selected?
    ensures var eligible := Eligible(slices, order);
            ReadySpec(slices, order, width, glob).ids
            == TakenBefore(slices, glob, eligible, Capacity(slices, width), |eligible|)
  {
    var eligible := Eligible(slices, order);
    assert eligible[..|eligible|] == eligible;
  }

  /** The eligible slices keep the order of the plan. */
  lemma EligibleInOrder(slices: Slices, order: seq<Id>, i: nat, j: nat) returns (k: nat, l: nat)
    requires i < j < |order| && IsEligible(slices, order[i]) && IsEligible(slices, order[j])
    ensures k < l < |Eligible(slices, order)|
    ensures Eligible(slices, order)[k] == order[i] && Eligible(slices, order)[l] == order[j]
  {
    hide Eligible, IsEligible;
    var front, back := order[..j], order[j..];
    assert order == front + back;
    EligibleConcat(slices, front, back);
    assert front[i] == order[i] && back[0] == order[j];
    k :| 0 <= k < |Eligible(slices, front)| && Eligible(slices, front)[k] == order[i];
    var m :| 0 <= m < |Eligible(slices, back)| && Eligible(slices, back)[m] == order[j];
    l := |Eligible(slices, front)| + m;
  }

  lemma {:induction false} EligibleConcat(slices: Slices, a: seq<Id>, b: seq<Id>)
    ensures Eligible(slices, a + b) == Eligible(slices, a) + Eligible(slices, b)
  {
    if a == [] {
      assert a + b == b;
    } else {
      assert (a + b)[1..] == a[1..] + b;
      EligibleConcat(slices, a[1..], b);
    }
  }

  // ---- the deadlock report

  /** The unmerged dependencies keep the order of their declaration. */
  lemma {:induction false} UnmetInOrder(slices: Slices, deps: seq<Id>, i: nat, j: nat) returns (k: nat, l: nat)
    requires i < j < |deps| && !Met(slices, deps[i]) && !Met(slices, deps[j])
    ensures k < l < |Unmet(slices, deps)|
    ensures Unmet(slices, deps)[k] == deps[i] && Unmet(slices, deps)[l] == deps[j]
  {
    var rest := deps[1..];
    var shift := if Met(slices, deps[0]) then 0 else 1;
    assert rest[j - 1] == deps[j];
    if i == 0 {
      UnmetIff(slices, rest);
      assert deps[j] in Unmet(slices, rest);
      var m :| 0 <= m < |Unmet(slices, rest)| && Unmet(slices, rest)[m] == deps[j];
      k, l := 0, m + 1;
    } else {
      k, l := UnmetInOrder(slices, rest, i - 1, j - 1);
      k, l := k + shift, l + shift;
    }
  }

  /**
   A deadlock lists the pending slices with an unmerged dependency that can never merge, and under each of them
   every dependency it still waits for, the ones that can merge included.
   */
  lemma DeadlockReports(slices: Slices, order: seq<Id>, width: Option<int>, glob: Glob)
    requires ReadySpec(slices, order, width, glob).Deadlock?
    ensures var blocked := ReadySpec(slices, order, width, glob).blocked;
            && (forall x :: x in blocked <==>
                  && x in slices && slices[x].status == Pending
                  && exists d :: d in slices[x].dependsOn && !(d in slices && slices[d].status == Merged)
                                 && CanNeverMerge(slices, d, {}))
            && (forall x, d :: x in blocked ==>
                  (d in blocked[x] <==> d in slices[x].dependsOn && !(d in slices && slices[d].status == Merged)))
            && (forall x :: x in blocked ==> blocked[x] == Unmet(slices, slices[x].dependsOn))
  {
    forall x | x in slices
      ensures UnsatisfiableDependencies(slices, x) != [] <==>
                exists d :: d in slices[x].dependsOn && !(d in slices && slices[d].status == Merged)
                            && CanNeverMerge(slices, d, {})
      ensures forall d :: d in Unmet(slices, slices[x].dependsOn) <==>
                d in slices[x].dependsOn && !(d in slices && slices[d].status == Merged)
    {
      StuckBehind(slices, x);
      UnmetIff(slices, slices[x].dependsOn);
    }
    hide Unmet, CanNeverMerge, UnsatisfiableDependencies, Greedy, Eligible;
  }

  lemma StuckBehind(slices: Slices, x: Id)
    requires x in slices
    ensures UnsatisfiableDependencies(slices, x) != [] <==>
              exists d :: d in slices[x].dependsOn && !(d in slices && slices[d].status == Merged)
                          && CanNeverMerge(slices, d, {})
  {
    var unmet := Unmet(slices, slices[x].dependsOn);
    UnmetIff(slices, slices[x].dependsOn);
    StuckIff(slices, unmet);
    hide CanNeverMerge, Unmet, Stuck;
    if Stuck(slices, unmet) != [] { assert Stuck(slices, unmet)[0] in Stuck(slices, unmet); }
  }
}
