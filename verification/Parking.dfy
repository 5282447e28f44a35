/** Parking one slice blocks its dependents by a different search than suspension uses. */
module Parking {
  import opened Prelude
  import opened Graphs
  import opened Slices
  import opened Schedule
  import opened ScheduleProperties

  datatype ControllerPhase = TLWaiting | TLMerging | TLFailed | OtherPhase

  datatype ParkError = SliceMissing

  function ParkedSlice(s: Slice, issue: Option<int>): Slice {
    s.(status := Parked, parkIssue := issue, blockedBy := None)
  }

  function BlockedSlice(s: Slice, b: Id, issue: Option<int>): Slice {
    s.(status := Blocked, blockedBy := Some(b), parkIssue := issue, suspended := None)
  }

  /** Park `b` and block `others`. */
  ghost function ParkAll(slices: Slices, b: Id, others: set<Id>, issue: Option<int>): Slices {
    map x | x in slices ::
      if x == b then ParkedSlice(slices[x], issue)
      else if x in others then BlockedSlice(slices[x], b, issue)
      else slices[x]
  }

  ghost function ParkSpec(slices: Slices, b: Id, issue: Option<int>): Slices {
    ParkAll(slices, b, Dependents(slices, PARK_TERMINAL, b) + {b}, issue)
  }

  /** Members of `s` outside `out`, in order. */
  function Without(s: seq<Id>, out: set<Id>): (r: seq<Id>)
    ensures forall x :: x in r <==> x in s && x !in out
  {
    if s == [] then []
    else
      assert s == [s[0]] + s[1..];
      (if s[0] in out then [] else [s[0]]) + Without(s[1..], out)
  }

  /** The part of the durable run document that parking edits in place. */
  class RunDocument {
    var slices: Slices
    var waiting: seq<Id>
    var phase: ControllerPhase

    constructor (slices: Slices, waiting: seq<Id>, phase: ControllerPhase)
      ensures this.slices == slices && this.waiting == waiting && this.phase == phase
    {
      this.slices, this.waiting, this.phase := slices, waiting, phase;
    }

    /** One pass over the slices, blocking whatever waits for something already blocked. */
    method BlockPass(b: Id, order: seq<Id>, issue: Option<int>, blocked0: seq<Id>, ids0: set<Id>,
                     ghost original: Slices, ghost held: set<Id>)
      returns (blocked: seq<Id>, ids: set<Id>, changed: bool)
      requires Enumerates(order, original.Keys) && b in original
      requires LeastClosed(original, PARK_TERMINAL, b, held)
      requires Blocking(b, blocked0, ids0) && ids0 <= held + {b}
      requires slices == ParkAll(original, b, ids0, issue)
      modifies this`slices
      ensures Blocking(b, blocked, ids) && ids0 <= ids <= held + {b}
      ensures slices == ParkAll(original, b, ids, issue)
      ensures changed ==> ids0 < ids
      ensures !changed ==> ClosedUnderWaits(original, PARK_TERMINAL, b, ids)
    {
      blocked, ids, changed := blocked0, ids0, false;
      for i := 0 to |order|
        invariant Blocking(b, blocked, ids) && ids0 <= ids <= held + {b}
        invariant slices == ParkAll(original, b, ids, issue)
        invariant changed ==> ids0 < ids
        invariant !changed ==> forall j :: 0 <= j < i ==> Passed(original, ids, order[j])
      {
        var dependent := order[i];
        assert dependent in original.Keys;
        if dependent in ids {
          continue;
        }
        ParkAllAdd(original, b, ids, dependent, issue);
        var raw := slices[dependent];
        if raw.status in PARK_TERMINAL {
          continue;
        }
        if !DependsOnAny(raw, ids) {
          continue;
        }
        ghost var k :| 0 <= k < |raw.dependsOn| && raw.dependsOn[k] in ids;
        assert Waits(original, PARK_TERMINAL, raw.dependsOn[k], dependent);
        assert dependent in held;
        slices := slices[dependent := BlockedSlice(raw, b, issue)];
        BlockingAdd(b, blocked, ids, dependent);
        ids := ids + {dependent};
        blocked := blocked + [dependent];
        changed := true;
      }
      if !changed {
        PassDone(original, b, order, ids);
      }
    }

    /** Repeat whole passes until one of them blocks nothing new. */
    method BlockDependents(b: Id, order: seq<Id>, issue: Option<int>,
                           ghost original: Slices, ghost held: set<Id>)
      returns (blocked: seq<Id>, ids: set<Id>)
      requires Enumerates(order, original.Keys) && b in original
      requires LeastClosed(original, PARK_TERMINAL, b, held)
      requires slices == ParkAll(original, b, {b}, issue)
      modifies this`slices
      ensures Blocking(b, blocked, ids) && ids == held + {b}
      ensures slices == ParkAll(original, b, ids, issue)
    {
      blocked, ids := [], {b};
      var changed := true;
      while changed
        invariant Blocking(b, blocked, ids) && ids <= held + {b}
        invariant slices == ParkAll(original, b, ids, issue)
        invariant !changed ==> ClosedUnderWaits(original, PARK_TERMINAL, b, ids)
        decreases held + {b} - ids, changed
      {
        blocked, ids, changed := BlockPass(b, order, issue, blocked, ids, original, held);
      }
    }

    method ParkAndBlock(b: Id, order: seq<Id>, issue: Option<int>, gateCause: bool, ghost held: set<Id>)
      returns (blocked: seq<Id>)
      requires Enumerates(order, slices.Keys) && b in slices
      requires LeastClosed(slices, PARK_TERMINAL, b, held)
      modifies this
      ensures slices == ParkAll(old(slices), b, held + {b}, issue)
      ensures Blocking(b, blocked, held + {b})
      ensures waiting == Without(old(waiting), held + {b})
      ensures phase == (if waiting == [] && old(phase) in {TLWaiting, TLMerging} && !gateCause
                        then TLFailed else old(phase))
    {
      ghost var original := slices;
      slices := slices[b := ParkedSlice(slices[b], issue)];
      assert slices == ParkAll(original, b, {b}, issue);
      var ids;
      blocked, ids := BlockDependents(b, order, issue, original, held);
      waiting := Without(waiting, ids);
      if waiting == [] && phase in {TLWaiting, TLMerging} && !gateCause {
        phase := TLFailed;
      }
    }

    method Park(b: Id, order: seq<Id>, issue: Option<int>, gateCause: bool) returns (r: Result<seq<Id>, ParkError>)
      requires Enumerates(order, slices.Keys)
      modifies this
      ensures b !in old(slices) ==> r == Err(SliceMissing) && unchanged(this)
      ensures b in old(slices) ==>
                var parked := Dependents(old(slices), PARK_TERMINAL, b) + {b};
                && r.Ok? && Blocking(b, r.value, parked)
                && slices == ParkSpec(old(slices), b, issue)
                && waiting == Without(old(waiting), parked)
                && phase == (if waiting == [] && old(phase) in {TLWaiting, TLMerging} && !gateCause
                             then TLFailed else old(phase))
    {
      if b !in slices {
        return Err(SliceMissing);
      }
      DependentsAreLeast(slices, PARK_TERMINAL, b);
      var blocked := ParkAndBlock(b, order, issue, gateCause, Dependents(slices, PARK_TERMINAL, b));
      return Ok(blocked);
    }
  }

  /** `ids` is the parked slice together with the slices listed, once each, in `blocked`. */
  ghost predicate Blocking(b: Id, blocked: seq<Id>, ids: set<Id>) {
    && b in ids && b !in blocked
    && (forall i, j :: 0 <= i < j < |blocked| ==> blocked[i] != blocked[j])
    && (forall x :: x in ids <==> x == b || x in blocked)
  }

  /** `x` was looked at and found not to wait for anything in `ids`. */
  ghost predicate Passed(slices: Slices, ids: set<Id>, x: Id) {
    x in ids || forall y :: y in ids ==> !Waits(slices, PARK_TERMINAL, y, x)
  }

  lemma BlockingAdd(b: Id, blocked: seq<Id>, ids: set<Id>, x: Id)
    requires Blocking(b, blocked, ids) && x !in ids
    ensures Blocking(b, blocked + [x], ids + {x})
  {
  }

  lemma ParkAllAdd(slices: Slices, b: Id, ids: set<Id>, x: Id, issue: Option<int>)
    requires x in slices && x !in ids && b in ids
    ensures x in ParkAll(slices, b, ids, issue) && ParkAll(slices, b, ids, issue)[x] == slices[x]
    ensures ParkAll(slices, b, ids, issue)[x := BlockedSlice(slices[x], b, issue)]
         == ParkAll(slices, b, ids + {x}, issue)
  {
  }

  lemma PassDone(slices: Slices, b: Id, order: seq<Id>, ids: set<Id>)
    requires Enumerates(order, slices.Keys) && b in ids
    requires forall j :: 0 <= j < |order| ==> Passed(slices, ids, order[j])
    ensures ClosedUnderWaits(slices, PARK_TERMINAL, b, ids)
  {
    forall y, x | y in ids && Waits(slices, PARK_TERMINAL, y, x) ensures x in ids {
      assert x in slices.Keys && x in order;
      assert Passed(slices, ids, x);
    }
  }

  // ---- the two searches agree

  lemma PrefixIsDependent(slices: Slices, terminal: set<Status>, b: Id, p: seq<Id>, k: nat)
    requires Chain(slices, terminal, b, p) && 1 <= k < |p|
    ensures p[k] in Dependents(slices, terminal, b)
  {
    var q := p[..k + 1];
    forall i, j | 0 <= i < j < |q| && j == i + 1 ensures Waits(slices, terminal, q[i], q[j]) {
      assert Waits(slices, terminal, p[i], p[j]);
    }
    assert Chain(slices, terminal, b, q) && q[|q| - 1] == p[k];
    assert Waits(slices, terminal, p[k - 1], p[k]);
  }

  /**
   The statuses the two operations treat as terminal differ: only parking reaches through a refused
   dispatch. So their results agree exactly when no dependent sits in that status.
   */
  lemma ClosuresAgreeIff(slices: Slices, b: Id)
    ensures Dependents(slices, SUSPEND_TERMINAL, b) == Dependents(slices, PARK_TERMINAL, b)
       <==> forall x :: x in Dependents(slices, PARK_TERMINAL, b) ==> !slices[x].status.DispatchFailed?
  {
    var wide := Dependents(slices, PARK_TERMINAL, b);
    var narrow := Dependents(slices, SUSPEND_TERMINAL, b);
    forall x | x in narrow ensures x in wide && !slices[x].status.DispatchFailed? {
      var p :| Chain(slices, SUSPEND_TERMINAL, b, p) && p[|p| - 1] == x;
      forall i, j | 0 <= i < j < |p| && j == i + 1 ensures Waits(slices, PARK_TERMINAL, p[i], p[j]) {
        assert Waits(slices, SUSPEND_TERMINAL, p[i], p[j]);
      }
      assert Chain(slices, PARK_TERMINAL, b, p);
      DependentIsNotTerminal(slices, SUSPEND_TERMINAL, b, x);
    }
    if forall x :: x in wide ==> !slices[x].status.DispatchFailed? {
      forall x | x in wide ensures x in narrow {
        var p :| Chain(slices, PARK_TERMINAL, b, p) && p[|p| - 1] == x;
        forall i, j | 0 <= i < j < |p| && j == i + 1 ensures Waits(slices, SUSPEND_TERMINAL, p[i], p[j]) {
          assert Waits(slices, PARK_TERMINAL, p[i], p[j]);
          PrefixIsDependent(slices, PARK_TERMINAL, b, p, j);
        }
        assert Chain(slices, SUSPEND_TERMINAL, b, p);
      }
    }
  }

  /** The dispatch of `x` was refused, and it depends directly on `y`. */
  predicate RefusedOn(slices: Slices, x: Id, y: Id) {
    x in slices && slices[x].status.DispatchFailed? && y in slices[x].dependsOn
  }

  /** No refused dispatch waits for the blocker or for a slice that suspension would hold back. */
  ghost predicate NoRefusedDependent(slices: Slices, b: Id) {
    forall x, y :: x != b && RefusedOn(slices, x, y) ==> y != b && y !in Dependents(slices, SUSPEND_TERMINAL, b)
  }

  lemma RefusedDependentIsParked(slices: Slices, b: Id, x: Id, y: Id)
    requires x != b && RefusedOn(slices, x, y)
    requires y == b || y in Dependents(slices, PARK_TERMINAL, b)
    ensures x in Dependents(slices, PARK_TERMINAL, b)
  {
    assert Waits(slices, PARK_TERMINAL, y, x);
    if y == b { ReachDirectly(slices, PARK_TERMINAL, b, x); } else { ReachFurther(slices, PARK_TERMINAL, b, y, x); }
  }

  lemma NarrowIsClosed(slices: Slices, b: Id)
    requires NoRefusedDependent(slices, b) && b !in Dependents(slices, SUSPEND_TERMINAL, b)
    requires forall y :: y in Dependents(slices, SUSPEND_TERMINAL, b) && b in slices ==> y !in slices[b].dependsOn
    ensures ClosedUnderWaits(slices, PARK_TERMINAL, b, Dependents(slices, SUSPEND_TERMINAL, b))
  {
    var narrow := Dependents(slices, SUSPEND_TERMINAL, b);
    forall x | Waits(slices, PARK_TERMINAL, b, x) && x != b ensures x in narrow {
      assert RefusedOn(slices, x, b) || Waits(slices, SUSPEND_TERMINAL, b, x);
      ReachDirectly(slices, SUSPEND_TERMINAL, b, x);
    }
    forall y, x | y in narrow && Waits(slices, PARK_TERMINAL, y, x) ensures x in narrow {
      assert x != b;
      assert RefusedOn(slices, x, y) || Waits(slices, SUSPEND_TERMINAL, y, x);
      ReachFurther(slices, SUSPEND_TERMINAL, b, y, x);
    }
  }

  lemma BlockerWaitsForNoDependent(slices: Slices, b: Id)
    requires Acyclic(DependencyEdges(slices))
    ensures forall y :: y in Dependents(slices, SUSPEND_TERMINAL, b) && b in slices ==> y !in slices[b].dependsOn
  {
    forall y | y in Dependents(slices, SUSPEND_TERMINAL, b) && b in slices ensures y !in slices[b].dependsOn {
      if y in slices[b].dependsOn {
        var p :| Chain(slices, SUSPEND_TERMINAL, b, p) && p[|p| - 1] == y;
        var c := [b] + seq(|p|, i requires 0 <= i < |p| => p[|p| - 1 - i]);
        forall i, j | 0 <= i < j < |c| && j == i + 1 ensures c[j] in Targets(DependencyEdges(slices), c[i]) {
          if i > 0 { assert Waits(slices, SUSPEND_TERMINAL, p[|p| - j], p[|p| - i]); }
        }
        assert IsCycle(DependencyEdges(slices), c);
        assert false;
      }
    }
  }

  lemma NoneRefusedWhenAgreed(slices: Slices, b: Id)
    requires Dependents(slices, SUSPEND_TERMINAL, b) == Dependents(slices, PARK_TERMINAL, b)
    ensures NoRefusedDependent(slices, b)
  {
    hide Dependents;
    ClosuresAgreeIff(slices, b);
    if x, y :| x != b && RefusedOn(slices, x, y) && (y == b || y in Dependents(slices, SUSPEND_TERMINAL, b)) {
      RefusedDependentIsParked(slices, b, x, y);
      assert false;
    }
  }

  lemma AgreedWhenNoneRefused(slices: Slices, b: Id)
    requires Acyclic(DependencyEdges(slices)) && NoRefusedDependent(slices, b)
    ensures Dependents(slices, SUSPEND_TERMINAL, b) == Dependents(slices, PARK_TERMINAL, b)
  {
    hide Acyclic, NoRefusedDependent, ClosedUnderWaits, Dependents;
    NotOwnDependent(slices, SUSPEND_TERMINAL, b);
    BlockerWaitsForNoDependent(slices, b);
    NarrowIsClosed(slices, b);
    DependentsAreLeast(slices, PARK_TERMINAL, b);
    var narrow := Dependents(slices, SUSPEND_TERMINAL, b);
    forall x | x in Dependents(slices, PARK_TERMINAL, b) ensures !slices[x].status.DispatchFailed? {
      assert x in narrow;
      DependentIsNotTerminal(slices, SUSPEND_TERMINAL, b, x);
    }
    ClosuresAgreeIff(slices, b);
  }

  /** The same condition, asked of the plan before either operation: which refused dispatches wait for what. */
  lemma ClosuresAgreeIffNoneRefused(slices: Slices, b: Id)
    requires Acyclic(DependencyEdges(slices))
    ensures Dependents(slices, SUSPEND_TERMINAL, b) == Dependents(slices, PARK_TERMINAL, b)
       <==> NoRefusedDependent(slices, b)
  {
    hide NoRefusedDependent, Dependents;
    if NoRefusedDependent(slices, b) {
      AgreedWhenNoneRefused(slices, b);
    } else if Dependents(slices, SUSPEND_TERMINAL, b) == Dependents(slices, PARK_TERMINAL, b) {
      NoneRefusedWhenAgreed(slices, b);
      assert false;
    }
  }

  /** `x` waits for `b`, and its dispatch was refused. */
  function RefusedBehind(b: Id, x: Id): Slices {
    map[b := Slice(Status.Spawned, [], [], None, None, None, None),
        x := Slice(DispatchFailed, [], [b], None, None, None, None)]
  }

  /** The two operations part on such a table: parking blocks the refused dispatch, suspension leaves it alone. */
  lemma RefusedDispatchDivides(b: Id, x: Id, generation: nat, issue: Option<int>)
    requires b != x
    ensures var slices := RefusedBehind(b, x);
            && x in SuspendSpec(slices, b, generation) && SuspendSpec(slices, b, generation)[x] == slices[x]
            && x in ParkSpec(slices, b, issue) && ParkSpec(slices, b, issue)[x].status.Blocked?
  {
    var slices := RefusedBehind(b, x);
    RefusedDependentIsParked(slices, b, x, b);
    if x in Dependents(slices, SUSPEND_TERMINAL, b) { DependentIsNotTerminal(slices, SUSPEND_TERMINAL, b, x); }
  }

  /**
   On an acyclic graph the level-by-level search of suspension and the repeated passes of parking hold
   back the same slices, the blocker not among them, exactly when no dependent is a refused dispatch.
   */
  lemma SuspendAndParkAgreeIff(slices: Slices, b: Id, generation: nat, issue: Option<int>)
    requires b in slices && Acyclic(DependencyEdges(slices))
    ensures var held := Dependents(slices, SUSPEND_TERMINAL, b);
            && b !in held
            && SuspendSpec(slices, b, generation) == SuspendAll(slices, held, b, generation)
            && (ParkSpec(slices, b, issue) == ParkAll(slices, b, held + {b}, issue) <==> NoRefusedDependent(slices, b))
  {
    var held := Dependents(slices, SUSPEND_TERMINAL, b);
    var parked := Dependents(slices, PARK_TERMINAL, b);
    NotOwnDependent(slices, SUSPEND_TERMINAL, b);
    NotOwnDependent(slices, PARK_TERMINAL, b);
    ClosuresAgreeIff(slices, b);
    ClosuresAgreeIffNoneRefused(slices, b);
    if x :| x in parked && slices[x].status.DispatchFailed? {
      if x in held { DependentIsNotTerminal(slices, SUSPEND_TERMINAL, b, x); }
      assert x !in held + {b};
      assert ParkSpec(slices, b, issue)[x].status == Blocked;
      assert ParkAll(slices, b, held + {b}, issue)[x].status == DispatchFailed;
    }
  }
}
