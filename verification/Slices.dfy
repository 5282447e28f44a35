/** Slice records, the dependents of a slice, and path ownership. */
module Slices {
  import opened Prelude
  import opened Graphs

  datatype Status =
    | Pending | Ready | Dispatching | DispatchUnconfirmed | DispatchRetryScheduled | DispatchFailed
    | Spawned | InReview | Repairing
    | Merged | Failed | Parked | Blocked

  datatype Suspension = Suspension(blockedBy: Id, priorStatus: Status, generation: nat)

  /** `recovery` holds the recovery round of a slice that is recovering. */
  datatype Slice = Slice(
    status: Status,
    paths: seq<string>,
    dependsOn: seq<Id>,
    recovery: Option<nat>,
    suspended: Option<Suspension>,
    blockedBy: Option<Id>,
    parkIssue: Option<int>)

  type Slices = map<Id, Slice>

  predicate Live(s: Status) {
    s.Spawned? || s.InReview? || s.Repairing?
  }

  /** Statuses a slice can never leave without having merged. */
  predicate Dead(s: Status) {
    s.Failed? || s.Blocked?
  }

  /** The statuses the scheduler does not suspend. */
  const SUSPEND_TERMINAL: set<Status> := {Merged, Failed, Parked, Blocked, DispatchFailed}

  /** The statuses parking does not block; a refused dispatch is not among them. */
  const PARK_TERMINAL: set<Status> := {Merged, Failed, Parked, Blocked}

  ghost function DependencyEdges(slices: Slices): Edges {
    map x | x in slices :: slices[x].dependsOn
  }

  /** `p` leads from `b` through slices outside `terminal`, each depending on the one before it. */
  ghost predicate Chain(slices: Slices, terminal: set<Status>, b: Id, p: seq<Id>) {
    && |p| >= 2 && p[0] == b && p[1] != b
    && forall i, j :: 0 <= i < j < |p| && j == i + 1 ==> Waits(slices, terminal, p[i], p[j])
  }

  /** `x` is outside `terminal` and depends directly on `y`. */
  predicate Waits(slices: Slices, terminal: set<Status>, y: Id, x: Id) {
    x in slices && slices[x].status !in terminal && y in slices[x].dependsOn
  }

  ghost predicate Reached(slices: Slices, terminal: set<Status>, b: Id, x: Id) {
    exists p :: Chain(slices, terminal, b, p) && p[|p| - 1] == x
  }

  /** The transitive dependents of `b` reachable through slices outside `terminal`. */
  ghost function Dependents(slices: Slices, terminal: set<Status>, b: Id): set<Id> {
    set x | x in slices && Reached(slices, terminal, b, x)
  }

  lemma ReachDirectly(slices: Slices, terminal: set<Status>, b: Id, x: Id)
    requires Waits(slices, terminal, b, x) && x != b
    ensures x in Dependents(slices, terminal, b)
  {
    assert Chain(slices, terminal, b, [b, x]);
  }

  lemma ReachFurther(slices: Slices, terminal: set<Status>, b: Id, y: Id, x: Id)
    requires y in Dependents(slices, terminal, b) && Waits(slices, terminal, y, x)
    ensures x in Dependents(slices, terminal, b)
  {
    var p :| Chain(slices, terminal, b, p) && p[|p| - 1] == y;
    var q := p + [x];
    forall i, j | 0 <= i < j < |q| && j == i + 1 ensures Waits(slices, terminal, q[i], q[j]) {
      if j < |p| { assert q[i] == p[i] && q[j] == p[j]; }
    }
    assert Chain(slices, terminal, b, q) && q[|q| - 1] == x;
  }

  /** `s` holds every slice that waits for `b` or for a member of `s`. */
  ghost predicate ClosedUnderWaits(slices: Slices, terminal: set<Status>, b: Id, s: set<Id>) {
    && (forall x :: Waits(slices, terminal, b, x) && x != b ==> x in s)
    && (forall y, x :: y in s && Waits(slices, terminal, y, x) ==> x in s)
  }

  /** The least closed set, which is what a search has to find. */
  ghost predicate LeastClosed(slices: Slices, terminal: set<Status>, b: Id, s: set<Id>) {
    && ClosedUnderWaits(slices, terminal, b, s)
    && s <= slices.Keys
    && forall other :: ClosedUnderWaits(slices, terminal, b, other) ==> s <= other
  }

  lemma ChainStaysInside(slices: Slices, terminal: set<Status>, b: Id, s: set<Id>, p: seq<Id>)
    requires ClosedUnderWaits(slices, terminal, b, s) && Chain(slices, terminal, b, p)
    ensures p[|p| - 1] in s
  {
    var i := 1;
    assert Waits(slices, terminal, p[0], p[1]);
    while i < |p| - 1
      invariant 1 <= i < |p| && p[i] in s
    {
      assert Waits(slices, terminal, p[i], p[i + 1]);
      i := i + 1;
    }
  }

  /** The slices reachable along chains are exactly the least set closed under waiting. */
  lemma DependentsAreLeast(slices: Slices, terminal: set<Status>, b: Id)
    ensures LeastClosed(slices, terminal, b, Dependents(slices, terminal, b))
  {
    var d := Dependents(slices, terminal, b);
    forall x | Waits(slices, terminal, b, x) && x != b ensures x in d {
      ReachDirectly(slices, terminal, b, x);
    }
    forall y, x | y in d && Waits(slices, terminal, y, x) ensures x in d {
      ReachFurther(slices, terminal, b, y, x);
    }
    forall other | ClosedUnderWaits(slices, terminal, b, other) ensures d <= other {
      forall x | x in d ensures x in other {
        var p :| Chain(slices, terminal, b, p) && p[|p| - 1] == x;
        ChainStaysInside(slices, terminal, b, other, p);
      }
    }
  }

  /** On an acyclic dependency graph a slice is not its own dependent. */
  lemma NotOwnDependent(slices: Slices, terminal: set<Status>, b: Id)
    requires Acyclic(DependencyEdges(slices))
    ensures b !in Dependents(slices, terminal, b)
  {
    if b in Dependents(slices, terminal, b) {
      var p :| Chain(slices, terminal, b, p) && p[|p| - 1] == b;
      var c := seq(|p|, i requires 0 <= i < |p| => p[|p| - 1 - i]);
      forall i, j | 0 <= i < j < |c| && j == i + 1
        ensures c[j] in Targets(DependencyEdges(slices), c[i])
      {
        assert Waits(slices, terminal, p[|p| - 1 - j], p[|p| - 1 - i]);
      }
      assert IsCycle(DependencyEdges(slices), c);
      assert false;
    }
  }

  /** Glob matching of one path pattern against another is a parameter of the model. */
  type Glob = (string, string) -> bool

  predicate Overlap(glob: Glob, left: string, right: string) {
    left == right || glob(left, right) || glob(right, left)
  }

  predicate Collide(glob: Glob, a: Slice, b: Slice) {
    exists i, j | 0 <= i < |a.paths| && 0 <= j < |b.paths| :: Overlap(glob, a.paths[i], b.paths[j])
  }

  lemma CollideSymmetric(glob: Glob, a: Slice, b: Slice)
    ensures Collide(glob, a, b) <==> Collide(glob, b, a)
  {
    if i, j :| 0 <= i < |a.paths| && 0 <= j < |b.paths| && Overlap(glob, a.paths[i], b.paths[j]) {
      assert Overlap(glob, b.paths[j], a.paths[i]);
    }
    if i, j :| 0 <= i < |b.paths| && 0 <= j < |a.paths| && Overlap(glob, b.paths[i], a.paths[j]) {
      assert Overlap(glob, a.paths[j], b.paths[i]);
    }
  }
}
