/** Readiness under a width bound, and the recovery closure operations of the scheduler. */
module Schedule {
  import opened Prelude
  import opened Graphs
  import opened Slices

  // ---- dependencies that can still be met, and those that cannot

  predicate Met(slices: Slices, d: Id) {
    d in slices && slices[d].status.Merged?
  }

  /** The dependencies that have not merged, in declaration order. */
  function Unmet(slices: Slices, deps: seq<Id>): seq<Id> {
    if deps == [] then []
    else (if Met(slices, deps[0]) then [] else [deps[0]]) + Unmet(slices, deps[1..])
  }

  predicate CanNeverMerge(slices: Slices, x: Id, visiting: set<Id>)
    decreases slices.Keys - visiting, 0
  {
    || x in visiting
    || x !in slices
    || Dead(slices[x].status)
    || (assert x in slices.Keys - visiting;
        AnyCanNeverMerge(slices, slices[x].dependsOn, visiting + {x}))
  }

  predicate AnyCanNeverMerge(slices: Slices, deps: seq<Id>, visiting: set<Id>)
    decreases slices.Keys - visiting, 1 + |deps|
  {
    deps != [] && (CanNeverMerge(slices, deps[0], visiting) || AnyCanNeverMerge(slices, deps[1..], visiting))
  }

  function Stuck(slices: Slices, deps: seq<Id>): seq<Id> {
    if deps == [] then []
    else (if CanNeverMerge(slices, deps[0], {}) then [deps[0]] else []) + Stuck(slices, deps[1..])
  }

  function UnsatisfiableDependencies(slices: Slices, x: Id): seq<Id> {
    if x !in slices then [] else Stuck(slices, Unmet(slices, slices[x].dependsOn))
  }

  // ---- readiness

  datatype ReadyResult =
    | Selected(ids: seq<Id>)
    | Deadlock(blocked: map<Id, seq<Id>>)
    | NegativeWidth

  function Occupied(slices: Slices): set<Id> {
    set x | x in slices && Live(slices[x].status)
  }

  /** The slices that consume the width ceiling: a recovering slice frees its width. */
  function Active(slices: Slices): set<Id> {
    set x | x in slices && Live(slices[x].status) && slices[x].recovery.None?
  }

  predicate IsPending(slices: Slices, x: Id) {
    x in slices && slices[x].status.Pending?
  }

  predicate IsEligible(slices: Slices, x: Id) {
    IsPending(slices, x) && Unmet(slices, slices[x].dependsOn) == []
  }

  function Eligible(slices: Slices, order: seq<Id>): (r: seq<Id>)
    ensures forall x :: x in r <==> x in order && IsEligible(slices, x)
  {
    if order == [] then []
    else
      assert order == [order[0]] + order[1..];
      (if IsEligible(slices, order[0]) then [order[0]] else []) + Eligible(slices, order[1..])
  }

  function Capacity(slices: Slices, width: Option<int>): Option<nat> {
    match width
    case None => None
    case Some(w) => Some(if w > |Active(slices)| then w - |Active(slices)| else 0)
  }

  predicate CollidesWithAny(slices: Slices, glob: Glob, x: Id, others: set<Id>)
    requires x in slices
  {
    exists y | y in others :: y in slices && Collide(glob, slices[x], slices[y])
  }

  function Elements(s: seq<Id>): set<Id> {
    set x | x in s
  }

  /** First come, first served: take each candidate that collides with nothing taken, up to `capacity`. */
  function Greedy(slices: Slices, glob: Glob, candidates: seq<Id>, capacity: Option<nat>, taken: seq<Id>): seq<Id>
    requires forall x :: x in candidates ==> x in slices
  {
    if candidates == [] || (capacity.Some? && |taken| >= capacity.value) then taken
    else if CollidesWithAny(slices, glob, candidates[0], Occupied(slices) + Elements(taken)) then
      Greedy(slices, glob, candidates[1..], capacity, taken)
    else
      Greedy(slices, glob, candidates[1..], capacity, taken + [candidates[0]])
  }

  /** The pending slices that can never progress, with what each still waits for. */
  function DeadPending(slices: Slices): map<Id, seq<Id>> {
    map x | x in slices && IsPending(slices, x) && UnsatisfiableDependencies(slices, x) != []
      :: Unmet(slices, slices[x].dependsOn)
  }

  function ReadySpec(slices: Slices, order: seq<Id>, width: Option<int>, glob: Glob): ReadyResult {
    if width.Some? && width.value < 0 then NegativeWidth
    else if Capacity(slices, width) == Some(0) then Selected([])
    else
      var eligible := Eligible(slices, order);
      var selected := Greedy(slices, glob, eligible, Capacity(slices, width), []);
      if selected == [] && Occupied(slices) == {} && eligible == [] && DeadPending(slices) != map[]
      then Deadlock(DeadPending(slices))
      else Selected(selected)
  }

  method SelectGreedily(slices: Slices, glob: Glob, eligible: seq<Id>, capacity: Option<nat>)
    returns (selected: seq<Id>)
    requires forall x :: x in eligible ==> x in slices
    requires capacity != Some(0)
    ensures selected == Greedy(slices, glob, eligible, capacity, [])
  {
    var occupied := Occupied(slices);
    selected := [];
    var i := 0;
    while i < |eligible|
      invariant 0 <= i <= |eligible|
      invariant capacity.Some? ==> |selected| < capacity.value
      invariant Greedy(slices, glob, eligible, capacity, [])
             == Greedy(slices, glob, eligible[i..], capacity, selected)
    {
      var candidate := eligible[i];
      assert eligible[i..][0] == candidate && eligible[i..][1..] == eligible[i + 1..];
      i := i + 1;
      if CollidesWithAny(slices, glob, candidate, occupied + Elements(selected)) {
        continue;
      }
      selected := selected + [candidate];
      if capacity.Some? && |selected| >= capacity.value {
        break;
      }
    }
  }

  method Ready(slices: Slices, order: seq<Id>, width: Option<int>, glob: Glob) returns (r: ReadyResult)
    requires Enumerates(order, slices.Keys)
    ensures r == ReadySpec(slices, order, width, glob)
  {
    if width.Some? && width.value < 0 {
      return NegativeWidth;
    }
    var occupied := Occupied(slices);
    var capacity := Capacity(slices, width);
    var eligible := Eligible(slices, order);
    if capacity == Some(0) {
      return Selected([]);
    }
    var selected := SelectGreedily(slices, glob, eligible, capacity);
    if selected == [] && occupied == {} && eligible == [] {
      var dead := DeadPending(slices);
      if dead != map[] {
        return Deadlock(dead);
      }
    }
    return Selected(selected);
  }

  // ---- suspension, restoration, abandonment

  datatype InputError = EmptyBlocker | NegativeGeneration

  predicate SuspendedFor(s: Slice, b: Id, generation: nat) {
    s.suspended.Some? && s.suspended.value.blockedBy == b && s.suspended.value.generation == generation
  }

  /** A slice held back behind `b`: reapplying the same signal keeps the first recorded status. */
  function Suspend(s: Slice, b: Id, generation: nat): Slice {
    var prior := if SuspendedFor(s, b, generation) then s.suspended.value.priorStatus else s.status;
    s.(status := Pending, suspended := Some(Suspension(b, prior, generation)))
  }

  ghost function SuspendSpec(slices: Slices, b: Id, generation: nat): Slices {
    SuspendAll(slices, Dependents(slices, SUSPEND_TERMINAL, b), b, generation)
  }

  /**
   What the level-by-level search has found: `seen`, of which `frontier` is not yet expanded.
   `held` is the set being searched for.
   */
  ghost predicate Searching(slices: Slices, b: Id, held: set<Id>, seen: set<Id>, frontier: set<Id>) {
    && seen <= held
    && (forall y, x :: y in seen - frontier && Waits(slices, SUSPEND_TERMINAL, y, x) ==> x in seen)
    && (b !in frontier ==> forall x :: Waits(slices, SUSPEND_TERMINAL, b, x) && x != b ==> x in seen)
    && (frontier <= seen || (frontier == {b} && seen == {}))
  }

  predicate DependsOnAny(s: Slice, frontier: set<Id>) {
    exists i | 0 <= i < |s.dependsOn| :: s.dependsOn[i] in frontier
  }

  ghost function SuspendAll(slices: Slices, held: set<Id>, b: Id, generation: nat): Slices {
    map x | x in slices :: if x in held then Suspend(slices[x], b, generation) else slices[x]
  }

  /** Whatever waits for the frontier is searched for. */
  lemma FrontierWaitersAreHeld(slices: Slices, b: Id, held: set<Id>, seen: set<Id>, frontier: set<Id>)
    requires LeastClosed(slices, SUSPEND_TERMINAL, b, held) && Searching(slices, b, held, seen, frontier)
    ensures seen <= held
    ensures forall y, x :: y in frontier && x !in frontier && Waits(slices, SUSPEND_TERMINAL, y, x) ==> x in held
  {
  }

  /** Expand one level: suspend every unseen candidate that depends on the frontier. */
  method ExpandLevel(slices: Slices, order: seq<Id>, b: Id, generation: nat, ghost held: set<Id>,
                     updated0: Slices, seen0: set<Id>, frontier: set<Id>)
    returns (updated: Slices, next: set<Id>)
    requires Enumerates(order, slices.Keys)
    requires LeastClosed(slices, SUSPEND_TERMINAL, b, held)
    requires Searching(slices, b, held, seen0, frontier)
    requires updated0 == SuspendAll(slices, seen0, b, generation)
    ensures next !! seen0
    ensures updated == SuspendAll(slices, seen0 + next, b, generation)
    ensures Searching(slices, b, held, seen0 + next, next)
  {
    hide Searching, LeastClosed;
    FrontierWaitersAreHeld(slices, b, held, seen0, frontier);
    updated, next := updated0, {};
    var seen := seen0;
    for i := 0 to |order|
      invariant seen == seen0 + next && next !! seen0 && seen <= held
      invariant next !! frontier
      invariant forall j :: 0 <= j < i ==>
                  (order[j] in seen0 + frontier + next
                   || forall y :: y in frontier ==> !Waits(slices, SUSPEND_TERMINAL, y, order[j]))
      invariant updated == SuspendAll(slices, seen, b, generation)
    {
      var id := order[i];
      assert id in slices.Keys;
      var candidate := slices[id];
      if id in seen || id in frontier {
        continue;
      }
      if candidate.status in SUSPEND_TERMINAL {
        continue;
      }
      if !DependsOnAny(candidate, frontier) {
        continue;
      }
      ghost var k :| 0 <= k < |candidate.dependsOn| && candidate.dependsOn[k] in frontier;
      assert Waits(slices, SUSPEND_TERMINAL, candidate.dependsOn[k], id);
      seen := seen + {id};
      var suspended := Suspend(candidate, b, generation);
      if candidate.suspended != suspended.suspended || candidate.status != Pending {
        updated := updated[id := suspended];
      }
      next := next + {id};
    }
    LevelDone(slices, order, b, held, seen0, frontier, next);
  }

  /** Once every candidate was looked at, the next level carries the search invariant. */
  lemma LevelDone(slices: Slices, order: seq<Id>, b: Id, held: set<Id>,
                  seen0: set<Id>, frontier: set<Id>, next: set<Id>)
    requires Enumerates(order, slices.Keys)
    requires Searching(slices, b, held, seen0, frontier)
    requires next !! seen0 && next !! frontier && seen0 + next <= held
    requires forall j :: 0 <= j < |order| ==>
               (order[j] in seen0 + frontier + next
                || forall y :: y in frontier ==> !Waits(slices, SUSPEND_TERMINAL, y, order[j]))
    ensures Searching(slices, b, held, seen0 + next, next)
  {
    forall y, x | y in frontier && Waits(slices, SUSPEND_TERMINAL, y, x) && (x != b || y != b)
      ensures x in seen0 + next
    {
      assert x in slices.Keys && x in order;
      var j :| 0 <= j < |order| && order[j] == x;
      assert order[j] in seen0 + frontier + next;
    }
  }

  lemma SearchStarts(slices: Slices, b: Id, generation: nat, held: set<Id>)
    ensures Searching(slices, b, held, {}, {b}) && SuspendAll(slices, {}, b, generation) == slices
  {
  }

  /** A level finds something new inside what is searched for, or is the last one. */
  lemma LevelAdvances(slices: Slices, b: Id, held: set<Id>, seen: set<Id>, next: set<Id>, frontier: set<Id>)
    requires Searching(slices, b, held, seen + next, next) && next !! seen && frontier != {}
    ensures if next == {} then seen + next == seen && |next| < |frontier|
            else held - (seen + next) < held - seen
  {
    if x :| x in next { assert x in held - seen && x !in held - (seen + next); }
  }

  lemma SearchEnds(slices: Slices, b: Id, held: set<Id>, seen: set<Id>)
    requires Searching(slices, b, held, seen, {}) && LeastClosed(slices, SUSPEND_TERMINAL, b, held)
    ensures seen == held
  {
    assert ClosedUnderWaits(slices, SUSPEND_TERMINAL, b, seen);
  }

  method SearchLevels(slices: Slices, order: seq<Id>, b: Id, generation: nat, ghost held: set<Id>)
    returns (updated: Slices)
    requires Enumerates(order, slices.Keys)
    requires LeastClosed(slices, SUSPEND_TERMINAL, b, held)
    ensures updated == SuspendAll(slices, held, b, generation)
  {
    hide Searching, LeastClosed, SuspendAll, Enumerates;
    updated := slices;
    var frontier := {b};
    var seen: set<Id> := {};
    SearchStarts(slices, b, generation, held);
    while frontier != {}
      invariant Searching(slices, b, held, seen, frontier)
      invariant updated == SuspendAll(slices, seen, b, generation)
      decreases held - seen, |frontier|
    {
      var next;
      updated, next := ExpandLevel(slices, order, b, generation, held, updated, seen, frontier);
      LevelAdvances(slices, b, held, seen, next, frontier);
      seen := seen + next;
      frontier := next;
    }
    SearchEnds(slices, b, held, seen);
  }

  method SuspendDependents(slices: Slices, order: seq<Id>, b: Id, generation: int)
    returns (r: Result<Slices, InputError>)
    requires Enumerates(order, slices.Keys)
    ensures b == "" ==> r == Err(EmptyBlocker)
    ensures b != "" && generation < 0 ==> r == Err(NegativeGeneration)
    ensures b != "" && generation >= 0 ==> r == Ok(SuspendSpec(slices, b, generation))
  {
    if b == "" {
      return Err(EmptyBlocker);
    }
    if generation < 0 {
      return Err(NegativeGeneration);
    }
    DependentsAreLeast(slices, SUSPEND_TERMINAL, b);
    var updated := SearchLevels(slices, order, b, generation, Dependents(slices, SUSPEND_TERMINAL, b));
    return Ok(updated);
  }

  function Restored(s: Slice, b: Id, generation: nat): Slice {
    if SuspendedFor(s, b, generation) then s.(status := s.suspended.value.priorStatus, suspended := None) else s
  }

  function RestoreSpec(slices: Slices, b: Id, generation: nat): Slices {
    if b !in slices || slices[b].recovery.Some? then slices
    else map x | x in slices :: Restored(slices[x], b, generation)
  }

  method RestoreDependents(slices: Slices, order: seq<Id>, b: Id, generation: nat) returns (updated: Slices)
    requires Enumerates(order, slices.Keys)
    ensures updated == RestoreSpec(slices, b, generation)
  {
    if b !in slices || slices[b].recovery.Some? {
      return slices;
    }
    updated := slices;
    for i := 0 to |order|
      invariant updated.Keys == slices.Keys
      invariant forall j :: 0 <= j < i ==> updated[order[j]] == Restored(slices[order[j]], b, generation)
      invariant forall j :: i <= j < |order| ==> updated[order[j]] == slices[order[j]]
    {
      var candidate := slices[order[i]];
      if candidate.suspended.None? {
        continue;
      }
      var suspension := candidate.suspended.value;
      if suspension.blockedBy != b || suspension.generation != generation {
        continue;
      }
      updated := updated[order[i] := candidate.(status := suspension.priorStatus, suspended := None)];
    }
    assert forall x :: x in slices.Keys ==> x in order;
  }

  function Abandoned(s: Slice, b: Id, generation: nat): Slice {
    if SuspendedFor(s, b, generation) then s.(status := Blocked, blockedBy := Some(b), suspended := None) else s
  }

  function AbandonSpec(slices: Slices, b: Id, generation: nat): Slices {
    map x | x in slices :: Abandoned(slices[x], b, generation)
  }

  method PropagateAbandonment(slices: Slices, order: seq<Id>, b: Id, generation: nat) returns (updated: Slices)
    requires Enumerates(order, slices.Keys)
    ensures updated == AbandonSpec(slices, b, generation)
    ensures forall x :: x in slices ==>
              updated[x] == if SuspendedFor(slices[x], b, generation)
                            then slices[x].(status := Blocked, blockedBy := Some(b), suspended := None) else slices[x]
  {
    updated := slices;
    for i := 0 to |order|
      invariant updated.Keys == slices.Keys
      invariant forall j :: 0 <= j < i ==> updated[order[j]] == Abandoned(slices[order[j]], b, generation)
      invariant forall j :: i <= j < |order| ==> updated[order[j]] == slices[order[j]]
    {
      var candidate := slices[order[i]];
      if candidate.suspended.None? {
        continue;
      }
      var suspension := candidate.suspended.value;
      if suspension.blockedBy != b || suspension.generation != generation {
        continue;
      }
      updated := updated[order[i] := candidate.(status := Blocked, blockedBy := Some(b), suspended := None)];
    }
    assert forall x :: x in slices.Keys ==> x in order;
  }

  /** A pending slice behind a prerequisite that can never merge is blocked on the first such edge. */
  function Withheld(slices: Slices, x: Id): Slice
    requires x in slices
  {
    var blockers := UnsatisfiableDependencies(slices, x);
    if slices[x].status.Pending? && blockers != []
    then slices[x].(status := Blocked, blockedBy := Some(blockers[0]), suspended := None)
    else slices[x]
  }

  function WithholdSpec(slices: Slices): Slices {
    map x | x in slices :: Withheld(slices, x)
  }

  method WithholdOne(slices: Slices, x: Id) returns (s: Slice)
    requires x in slices
    ensures s == Withheld(slices, x)
  {
    s := slices[x];
    if s.status == Pending {
      var blockers := UnsatisfiableDependencies(slices, x);
      if blockers != [] {
        s := s.(status := Blocked, blockedBy := Some(blockers[0]), suspended := None);
      }
    }
  }

  method WithholdUnsatisfiable(slices: Slices, order: seq<Id>) returns (updated: Slices)
    requires Enumerates(order, slices.Keys)
    ensures updated == WithholdSpec(slices)
  {
    hide Withheld;
    updated := map[];
    for i := 0 to |order|
      invariant updated.Keys == set j | 0 <= j < i :: order[j]
      invariant forall x :: x in updated ==> x in slices && updated[x] == Withheld(slices, x)
    {
      assert order[i] in slices.Keys;
      var state := WithholdOne(slices, order[i]);
      updated := updated[order[i] := state];
    }
    assert forall x :: x in slices.Keys ==> x in order;
  }
}
