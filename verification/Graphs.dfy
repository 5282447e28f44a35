/**
 Declared dependency edges, walks over them and cycles: the one reachability vocabulary
 shared by plan validation, the scheduler and parking.
 */
module Graphs {
  type Id = string
  type Edges = map<Id, seq<Id>>

  /** A node that declares nothing has no outgoing edge. */
  function Targets(e: Edges, n: Id): seq<Id> {
    if n in e then e[n] else []
  }

  /** Each node of `p` depends on the next one. */
  ghost predicate Walk(e: Edges, p: seq<Id>) {
    && |p| > 0
    && forall i, j :: 0 <= i < j < |p| && j == i + 1 ==> p[j] in Targets(e, p[i])
  }

  ghost predicate IsCycle(e: Edges, p: seq<Id>) {
    |p| >= 2 && Walk(e, p) && p[0] == p[|p| - 1]
  }

  ghost predicate Acyclic(e: Edges) {
    !exists p :: IsCycle(e, p)
  }

  /** No edge leaves `s`. */
  ghost predicate Closed(e: Edges, s: set<Id>) {
    forall n, t :: n in s && t in Targets(e, n) ==> t in s
  }

  /** No cycle can be entered from `s`. */
  ghost predicate CycleFree(e: Edges, s: set<Id>) {
    forall c :: IsCycle(e, c) ==> c[0] !in s
  }

  /** A cycle read from its second node is a cycle too. */
  lemma RotateCycle(e: Edges, c: seq<Id>) returns (r: seq<Id>)
    requires IsCycle(e, c)
    ensures IsCycle(e, r) && r[0] == c[1]
  {
    r := c[1..] + [c[1]];
    forall i, j | 0 <= i < j < |r| && j == i + 1 ensures r[j] in Targets(e, r[i]) {
      if j < |c| - 1 {
        assert r[i] == c[i + 1] && r[j] == c[j + 1];
      } else {
        assert r[i] == c[|c| - 1] == c[0] && r[j] == c[1];
      }
    }
  }

  /** Finishing a node whose targets are all finished opens no cycle. */
  lemma FinishNode(e: Edges, done: set<Id>, n: Id)
    requires Closed(e, done) && CycleFree(e, done)
    requires forall t :: t in Targets(e, n) ==> t in done
    ensures Closed(e, done + {n}) && CycleFree(e, done + {n})
  {
    forall c | IsCycle(e, c) ensures c[0] !in done + {n} {
      var r := RotateCycle(e, c);
      assert c[1] in Targets(e, c[0]);
    }
  }

  /** A cycle leaves its first node, so that node declares an edge. */
  lemma CycleStartsAtKey(e: Edges, c: seq<Id>)
    requires IsCycle(e, c)
    ensures c[0] in e
  {
    assert c[1] in Targets(e, c[0]);
  }

  /** No cycle starts anywhere once every declaring node is known to be cycle-free. */
  lemma CoveredIsAcyclic(e: Edges, s: set<Id>)
    requires CycleFree(e, s) && e.Keys <= s
    ensures Acyclic(e)
  {
    forall c ensures !IsCycle(e, c) {
      if IsCycle(e, c) {
        CycleStartsAtKey(e, c);
        assert false;
      }
    }
  }

  lemma WalkSlice(e: Edges, p: seq<Id>, lo: nat, hi: nat)
    requires Walk(e, p) && lo < hi <= |p|
    ensures Walk(e, p[lo..hi])
  {
    var q := p[lo..hi];
    forall i, j | 0 <= i < j < |q| && j == i + 1 ensures q[j] in Targets(e, q[i]) {
      assert q[i] == p[lo + i] && q[j] == p[lo + j];
    }
  }

  /** A sequence without repetition cannot be longer than the set it is drawn from. */
  lemma {:induction false} Pigeonhole(p: seq<Id>, s: set<Id>)
    requires forall i :: 0 <= i < |p| ==> p[i] in s
    requires |p| > |s|
    ensures exists i, j :: 0 <= i < j < |p| && p[i] == p[j]
    decreases |p|
  {
    var x := p[0];
    if i :| 0 < i < |p| && p[i] == x {
      assert p[0] == p[i];
    } else {
      forall i | 0 <= i < |p[1..]| ensures p[1..][i] in s - {x} {
        assert p[1..][i] == p[i + 1];
      }
      Pigeonhole(p[1..], s - {x});
      var i, j :| 0 <= i < j < |p[1..]| && p[1..][i] == p[1..][j];
      assert p[i + 1] == p[j + 1];
    }
  }

  /** `y` has an edge into `s`. */
  ghost predicate EdgeInto(e: Edges, y: Id, s: set<Id>) {
    exists t :: t in Targets(e, y) && t in s
  }

  /** Every node of `s` has an edge back into `s`. */
  ghost predicate NoWayOut(e: Edges, s: set<Id>) {
    forall y {:trigger EdgeInto(e, y, s)} :: y in s ==> EdgeInto(e, y, s)
  }

  lemma ExtendWalk(e: Edges, x: Id, q: seq<Id>)
    requires Walk(e, q) && q[0] in Targets(e, x)
    ensures Walk(e, [x] + q)
  {
    var p := [x] + q;
    forall i, j | 0 <= i < j < |p| && j == i + 1 ensures p[j] in Targets(e, p[i]) {
      assert p[j] == q[i];
      if i > 0 { assert p[i] == q[i - 1]; }
    }
  }

  /** From a set in which every node has an edge back into the set, walks of any length exist. */
  lemma {:induction false} LongWalk(e: Edges, s: set<Id>, x: Id, n: nat) returns (p: seq<Id>)
    requires x in s && NoWayOut(e, s)
    ensures Walk(e, p) && |p| == n + 1 && p[0] == x
    ensures forall i :: 0 <= i < |p| ==> p[i] in s
    decreases n
  {
    if n == 0 {
      p := [x];
    } else {
      assert EdgeInto(e, x, s);
      var t :| t in Targets(e, x) && t in s;
      var q := LongWalk(e, s, t, n - 1);
      ExtendWalk(e, x, q);
      p := [x] + q;
    }
  }

  /** An acyclic graph has, in every non-empty set, a node with no edge back into the set. */
  lemma MinimalNode(e: Edges, s: set<Id>) returns (x: Id)
    requires Acyclic(e) && s != {}
    ensures x in s && forall t :: t in Targets(e, x) ==> t !in s
  {
    if NoWayOut(e, s) {
      var y :| y in s;
      var p := LongWalk(e, s, y, |s|);
      Pigeonhole(p, s);
      var i, j :| 0 <= i < j < |p| && p[i] == p[j];
      WalkSlice(e, p, i, j + 1);
      assert IsCycle(e, p[i..j + 1]);
      assert false;
    } else {
      x :| x in s && !EdgeInto(e, x, s);
    }
  }

  /** Along a walk whose every edge lowers a rank, the rank falls. */
  lemma {:induction false} RankFalls(e: Edges, rank: Id -> int, p: seq<Id>)
    requires Walk(e, p) && |p| >= 2
    requires forall n, t :: t in Targets(e, n) ==> rank(t) < rank(n)
    ensures rank(p[|p| - 1]) < rank(p[0])
    decreases |p|
  {
    assert p[1] in Targets(e, p[0]);
    if |p| > 2 {
      WalkSlice(e, p, 1, |p|);
      assert p[1..|p|] == p[1..];
      RankFalls(e, rank, p[1..]);
    }
  }
}
