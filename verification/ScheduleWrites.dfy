/** What suspension, abandonment, withholding and parking write, field by field. */
module ScheduleWrites {
  import opened Prelude
  import opened Graphs
  import opened Slices
  import opened Schedule
  import opened ScheduleProperties
  import opened Parking
  import opened DispatchRuns

  /** Nobody outside the dependents carries this blocker's mark. */
  ghost predicate NoForeignMark(slices: Slices, b: Id, generation: nat) {
    forall x :: x in slices && x !in Dependents(slices, SUSPEND_TERMINAL, b) ==>
      !SuspendedFor(slices[x], b, generation)
  }

  /** A suspended slice waits as pending, and remembers its blocker, the recovery and the status it had first. */
  lemma SuspensionHoldsBack(slices: Slices, b: Id, generation: nat, x: Id)
    requires x in slices
    ensures x in SuspendSpec(slices, b, generation)
    ensures var after := SuspendSpec(slices, b, generation)[x];
            var first := if SuspendedFor(slices[x], b, generation) then slices[x].suspended.value.priorStatus
                         else slices[x].status;
            if x in Dependents(slices, SUSPEND_TERMINAL, b)
            then after == slices[x].(status := Pending, suspended := Some(Suspension(b, first, generation)))
            else after == slices[x]
  {
  }

  /** An abandoned slice is blocked on the blocker that failed it. */
  predicate BlockedOn(before: Slice, after: Slice, b: Id) {
    && after.status == Blocked && after.blockedBy == Some(b) && after.suspended == None
    && after.paths == before.paths && after.dependsOn == before.dependsOn
    && after.recovery == before.recovery && after.parkIssue == before.parkIssue
  }

  /** On any table, abandoning a recovery blocks the slices that carry its mark, and changes no other. */
  lemma AbandonmentBlocksTheMarked(slices: Slices, b: Id, generation: nat, x: Id)
    requires x in slices
    ensures x in AbandonSpec(slices, b, generation)
    ensures (exists prior :: slices[x].suspended == Some(Suspension(b, prior, generation))) ==>
              BlockedOn(slices[x], AbandonSpec(slices, b, generation)[x], b)
    ensures (forall prior :: slices[x].suspended != Some(Suspension(b, prior, generation))) ==>
              AbandonSpec(slices, b, generation)[x] == slices[x]
  {
    if SuspendedFor(slices[x], b, generation) {
      assert slices[x].suspended == Some(Suspension(b, slices[x].suspended.value.priorStatus, generation));
    }
  }

  /**
   Suspending and then abandoning blocks the dependents on their blocker and leaves every other slice alone,
   exactly when nobody outside the dependents carries the mark.
   */
  lemma AbandonmentBlocksTheSuspended(slices: Slices, b: Id, generation: nat)
    ensures var after := AbandonSpec(SuspendSpec(slices, b, generation), b, generation);
            var held := Dependents(slices, SUSPEND_TERMINAL, b);
            && after.Keys == slices.Keys
            && (forall x :: x in slices && x in held ==> BlockedOn(slices[x], after[x], b))
            && ((forall x :: x in slices && x !in held ==> after[x] == slices[x])
                <==> NoForeignMark(slices, b, generation))
  {
    var after := AbandonSpec(SuspendSpec(slices, b, generation), b, generation);
    var held := Dependents(slices, SUSPEND_TERMINAL, b);
    assert after.Keys == slices.Keys;
    if forall x :: x in slices && x !in held ==> after[x] == slices[x] {
      forall x | x in slices && x !in held ensures !SuspendedFor(slices[x], b, generation) {
        assert after[x] == slices[x];
      }
    }
  }

  /**
   On any table, the end of a recovery gives the marked slices their first status back, once the blocker is in
   the table and no longer recovering; before that, and for every other slice, nothing changes.
   */
  lemma RestorationGivesBack(slices: Slices, b: Id, generation: nat, x: Id)
    requires x in slices
    ensures x in RestoreSpec(slices, b, generation)
    ensures var after := RestoreSpec(slices, b, generation)[x];
            var over := b in slices && slices[b].recovery == None;
            && (forall prior :: over && slices[x].suspended == Some(Suspension(b, prior, generation)) ==>
                  after == slices[x].(status := prior, suspended := None))
            && (!over || (forall prior :: slices[x].suspended != Some(Suspension(b, prior, generation))) ==>
                  after == slices[x])
  {
    if SuspendedFor(slices[x], b, generation) {
      assert slices[x].suspended == Some(Suspension(b, slices[x].suspended.value.priorStatus, generation));
    }
  }

  /** In a run: a slice that still is suspended when its blocker is abandoned ends blocked on it, the blocker failed. */
  lemma AbandonedRunsEndBlocked(start: Slices, glob: Glob, steps: seq<Step>, at: Slices, b: Id, g: nat, x: Id)
    requires Run(start, glob, steps, at) && x in at && x != b && SuspendedFor(at[x], b, g)
    requires b in at && at[b].recovery == Some(g)
    ensures Enabled(at, glob, Abandon(b)) && Run(start, glob, steps + [Abandon(b)], Apply(at, Abandon(b)))
    ensures var end := Apply(at, Abandon(b));
            x in end && BlockedOn(at[x], end[x], b) && b in end && end[b].status == Failed
  {
    hide Run;
    OneStepRun(at, glob, Abandon(b));
    RunJoined(start, glob, steps, at, [Abandon(b)], Apply(at, Abandon(b)));
  }

  lemma OneStepRun(at: Slices, glob: Glob, step: Step)
    requires Enabled(at, glob, step)
    ensures Run(at, glob, [step], Apply(at, step))
  {
    hide Enabled, Apply;
    assert [step][1..] == [];
  }

  // ---- withholding

  lemma {:induction false} UnmetFirst(slices: Slices, deps: seq<Id>)
    requires Stuck(slices, Unmet(slices, deps)) != []
    ensures exists i :: 0 <= i < |deps| && deps[i] == Stuck(slices, Unmet(slices, deps))[0] && Hopeless(slices, deps[i])
                        && forall j :: 0 <= j < i ==> !Hopeless(slices, deps[j])
  {
    if Hopeless(slices, deps[0]) {
      assert Unmet(slices, deps)[0] == deps[0];
    } else {
      var rest := deps[1..];
      if Met(slices, deps[0]) {
        assert Unmet(slices, deps) == [] + Unmet(slices, rest) == Unmet(slices, rest);
      } else {
        assert Unmet(slices, deps)[1..] == Unmet(slices, rest);
        assert Stuck(slices, Unmet(slices, deps)) == [] + Stuck(slices, Unmet(slices, rest))
            == Stuck(slices, Unmet(slices, rest));
      }
      UnmetFirst(slices, rest);
      var i :| 0 <= i < |rest| && rest[i] == Stuck(slices, Unmet(slices, rest))[0] && Hopeless(slices, rest[i])
               && forall j :: 0 <= j < i ==> !Hopeless(slices, rest[j]);
      assert deps[i + 1] == rest[i];
      forall j | 0 <= j < i + 1 ensures !Hopeless(slices, deps[j]) {
        if j > 0 { assert deps[j] == rest[j - 1]; }
      }
    }
  }

  /** An unmerged dependency that can never merge. */
  predicate Hopeless(slices: Slices, d: Id) {
    !(d in slices && slices[d].status == Merged) && CanNeverMerge(slices, d, {})
  }

  /** Withholding blocks a pending slice on the first of its dependencies that is hopeless, and nothing else. */
  lemma WithholdingBlamesTheFirst(slices: Slices, x: Id)
    requires x in slices
    ensures x in WithholdSpec(slices)
    ensures var after := WithholdSpec(slices)[x];
            var deps := slices[x].dependsOn;
            if slices[x].status == Pending && exists i :: 0 <= i < |deps| && Hopeless(slices, deps[i]) then
              exists i :: 0 <= i < |deps| && Hopeless(slices, deps[i]) && BlockedOn(slices[x], after, deps[i])
                          && forall j :: 0 <= j < i ==> !Hopeless(slices, deps[j])
            else after == slices[x]
  {
    var deps := slices[x].dependsOn;
    UnmetIff(slices, deps);
    ScheduleProperties.StuckIff(slices, Unmet(slices, deps));
    if Stuck(slices, Unmet(slices, deps)) != [] {
      UnmetFirst(slices, deps);
    }
    if i :| 0 <= i < |deps| && Hopeless(slices, deps[i]) {
      assert deps[i] in Stuck(slices, Unmet(slices, deps));
    }
  }

  // ---- parking

  /** Parking writes the parked slice with its issue and without a blocker, and blocks its dependents on it. */
  lemma ParkingWrites(slices: Slices, b: Id, issue: Option<int>, x: Id)
    requires x in slices
    ensures x in ParkSpec(slices, b, issue)
    ensures var after := ParkSpec(slices, b, issue)[x];
            if x == b then
              && after.status == Parked && after.parkIssue == issue && after.blockedBy == None
              && after.suspended == slices[x].suspended
              && after.paths == slices[x].paths && after.dependsOn == slices[x].dependsOn
              && after.recovery == slices[x].recovery
            else if x in Dependents(slices, PARK_TERMINAL, b) then
              after.parkIssue == issue && BlockedOn(slices[x].(parkIssue := issue), after, b)
            else after == slices[x]
  {
  }

  /** Parking and abandonment agree on a suspended dependent, but for the issue. */
  lemma ParkingAgreesWithAbandonment(slices: Slices, b: Id, generation: nat, issue: Option<int>, x: Id)
    requires x in slices && x != b && x in Dependents(slices, SUSPEND_TERMINAL, b)
    requires x in Dependents(slices, PARK_TERMINAL, b)
    ensures x in AbandonSpec(SuspendSpec(slices, b, generation), b, generation) && x in ParkSpec(slices, b, issue)
    ensures AbandonSpec(SuspendSpec(slices, b, generation), b, generation)[x].(parkIssue := issue)
         == ParkSpec(slices, b, issue)[x]
  {
  }

  // ---- the terminal statuses

  /** A dependent is searched through exactly outside these statuses. */
  lemma DirectDependentsByStatus(slices: Slices, b: Id, x: Id)
    requires x in slices && x != b && b in slices[x].dependsOn
    ensures x in Dependents(slices, SUSPEND_TERMINAL, b) <==>
              slices[x].status !in {Merged, Failed, Parked, Blocked, DispatchFailed}
    ensures x in Dependents(slices, PARK_TERMINAL, b) <==> slices[x].status !in {Merged, Failed, Parked, Blocked}
  {
    assert Waits(slices, SUSPEND_TERMINAL, b, x) || slices[x].status in SUSPEND_TERMINAL;
    assert Waits(slices, PARK_TERMINAL, b, x) || slices[x].status in PARK_TERMINAL;
    if Waits(slices, SUSPEND_TERMINAL, b, x) { ReachDirectly(slices, SUSPEND_TERMINAL, b, x); }
    if Waits(slices, PARK_TERMINAL, b, x) { ReachDirectly(slices, PARK_TERMINAL, b, x); }
    if x in Dependents(slices, SUSPEND_TERMINAL, b) { DependentIsNotTerminal(slices, SUSPEND_TERMINAL, b, x); }
    if x in Dependents(slices, PARK_TERMINAL, b) { DependentIsNotTerminal(slices, PARK_TERMINAL, b, x); }
  }

  /** A slice that is absent, failed or blocked can never merge; parking or refusing it is not enough. */
  lemma DeadByStatus(slices: Slices, d: Id)
    ensures d !in slices || slices[d].status == Failed || slices[d].status == Blocked ==> CanNeverMerge(slices, d, {})
    ensures d in slices && slices[d].dependsOn == [] && CanNeverMerge(slices, d, {}) ==>
              slices[d].status == Failed || slices[d].status == Blocked
  {
    if d in slices { AnyIff(slices, slices[d].dependsOn, {} + {d}); }
  }
}
