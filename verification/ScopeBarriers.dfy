/** How the pending groups of a running scope follow from the plan and the completed children. */
module ScopeBarriers {
  import opened Prelude
  import opened Children
  import opened Scope

  function All(p: Plan): seq<Child> {
    p.parallel + Flatten(p.ordered)
  }

  /** What is left of the ordered stages: the current stage without its completed children, later stages whole. */
  function Pending(ordered: seq<Group>, done: set<string>): seq<Group> {
    if ordered == [] then []
    else
      var rest := Without(ordered[0].records, done);
      if rest == [] then Pending(ordered[1..], done) else [Group(ordered[0].order, rest)] + ordered[1..]
  }

  /** No child of a later stage is done while an earlier stage has a child left. */
  predicate Barrier(ordered: seq<Group>, done: set<string>) {
    ordered == [] ||
    if Without(ordered[0].records, done) == [] then Barrier(ordered[1..], done)
    else forall c :: c in Flatten(ordered[1..]) ==> c.id !in done
  }

  /** The current order: the first pending stage, or zero when only parallel work is left. */
  function OrderOf(groups: seq<Group>): int {
    if groups == [] then 0 else groups[0].order
  }

  predicate Sorted(p: Plan) {
    Ordered(p.parallel) && forall g :: g in p.ordered ==> Ordered(g.records)
  }

  // ---- filtering and flattening

  lemma {:induction false} WithoutConcat(s: seq<Child>, t: seq<Child>, gone: set<string>)
    ensures Without(s + t, gone) == Without(s, gone) + Without(t, gone)
  {
    if s == [] {
      assert s + t == t;
    } else {
      assert (s + t)[1..] == s[1..] + t;
      WithoutConcat(s[1..], t, gone);
    }
  }

  /** The pending stages hold exactly the stage children that are not done. */
  lemma {:induction false} PendingIsRest(ordered: seq<Group>, done: set<string>)
    requires Barrier(ordered, done)
    ensures Flatten(Pending(ordered, done)) == Without(Flatten(ordered), done)
  {
    if ordered != [] {
      var rest := Without(ordered[0].records, done);
      WithoutConcat(ordered[0].records, Flatten(ordered[1..]), done);
      if rest == [] {
        PendingIsRest(ordered[1..], done);
      } else {
        WithoutAbsent(Flatten(ordered[1..]), done);
        assert Pending(ordered, done)[1..] == ordered[1..];
      }
    }
  }

  lemma TailIsContiguous(groups: seq<Group>, first: int)
    requires ContiguousFrom(groups, first) && groups != []
    ensures ContiguousFrom(groups[1..], first + 1)
  {
    assert forall i :: 0 <= i < |groups| - 1 ==> groups[1..][i] == groups[i + 1];
  }

  lemma {:induction false} PendingIsContiguous(ordered: seq<Group>, done: set<string>, first: int)
    requires ContiguousFrom(ordered, first)
    ensures var g := Pending(ordered, done); ContiguousFrom(g, OrderOf(g)) && (g != [] ==> OrderOf(g) >= first)
  {
    if ordered != [] {
      var rest := Without(ordered[0].records, done);
      TailIsContiguous(ordered, first);
      if rest == [] {
        PendingIsContiguous(ordered[1..], done, first + 1);
      } else {
        WithoutKeeps(ordered[0].records, done);
        var g := Pending(ordered, done);
        assert forall i :: 1 <= i < |g| ==> g[i] == ordered[i];
      }
    }
  }

  lemma {:induction false} PendingIsSorted(ordered: seq<Group>, done: set<string>)
    requires forall g :: g in ordered ==> Ordered(g.records)
    ensures forall g :: g in Pending(ordered, done) ==> Ordered(g.records)
    ensures Normalized(Pending(ordered, done)) == Pending(ordered, done)
  {
    if ordered == [] {
    } else if Without(ordered[0].records, done) == [] {
      PendingIsSorted(ordered[1..], done);
    } else {
      WithoutKeeps(ordered[0].records, done);
    }
    NormalizedIsIdle(Pending(ordered, done));
  }

  lemma {:induction false} NormalizedIsIdle(groups: seq<Group>)
    requires forall g :: g in groups ==> Ordered(g.records)
    ensures Normalized(groups) == groups
  {
    if groups != [] {
      SortKeepsOrdered(groups[0].records);
      NormalizedIsIdle(groups[1..]);
    }
  }

  // ---- one more child is done

  /** A child outside the stages changes nothing in them. */
  lemma {:induction false} PendingIgnores(ordered: seq<Group>, done: set<string>, id: string)
    requires forall c :: c in Flatten(ordered) ==> c.id != id
    ensures Pending(ordered, done + {id}) == Pending(ordered, done)
    ensures Barrier(ordered, done + {id}) == Barrier(ordered, done)
  {
    if ordered != [] {
      var rest := Without(ordered[0].records, done);
      WithoutTwice(ordered[0].records, done, {id});
      WithoutAbsent(rest, {id});
      PendingIgnores(ordered[1..], done, id);
    }
  }

  /** Stages in which nothing is done are pending whole. */
  lemma {:induction false} PendingUntouched(ordered: seq<Group>, done: set<string>, first: int)
    requires ContiguousFrom(ordered, first)
    requires forall c :: c in Flatten(ordered) ==> c.id !in done
    ensures Pending(ordered, done) == ordered && Barrier(ordered, done)
  {
    if ordered != [] {
      WithoutAbsent(ordered[0].records, done);
    }
  }

  /** Completing a child of the current stage removes it there, and opens the next stage when it was the last. */
  lemma {:induction false} PendingAdvances(ordered: seq<Group>, done: set<string>, id: string, first: int)
    requires ContiguousFrom(ordered, first) && Unique(Flatten(ordered)) && Barrier(ordered, done)
    requires Pending(ordered, done) != [] && id in Ids(Pending(ordered, done)[0].records)
    ensures Barrier(ordered, done + {id})
    ensures var g := Pending(ordered, done);
            var rest := Without(g[0].records, {id});
            && Pending(ordered, done + {id}) == (if rest == [] then [] else [Group(g[0].order, rest)]) + g[1..]
            && forall c :: c in Flatten(g[1..]) ==> c.id != id
  {
    var head := ordered[0].records;
    UniqueSplit(head, Flatten(ordered[1..]));
    WithoutTwice(head, done, {id});
    TailIsContiguous(ordered, first);
    if Without(head, done) == [] {
      PendingAdvances(ordered[1..], done, id, first + 1);
    } else {
      assert Pending(ordered, done)[1..] == ordered[1..];
      assert forall c :: c in Flatten(ordered[1..]) ==> c.id !in done + {id};
      PendingUntouched(ordered[1..], done + {id}, first + 1);
    }
  }

  // ---- what the code computes

  lemma {:induction false} RemoveFromAbsent(groups: seq<Group>, id: string)
    requires forall c :: c in Flatten(groups) ==> c.id != id
    ensures RemoveFrom(groups, id) == groups
  {
    if groups != [] {
      WithoutAbsent(groups[0].records, {id});
      RemoveFromAbsent(groups[1..], id);
    }
  }

  lemma {:induction false} DropAbsent(groups: seq<Group>, first: int, order: int)
    requires ContiguousFrom(groups, first) && order < first
    ensures DropOrder(groups, order) == groups
  {
    if groups != [] {
      TailIsContiguous(groups, first);
      DropAbsent(groups[1..], first + 1, order);
    }
  }

  lemma {:induction false} MinOfContiguous(groups: seq<Group>, first: int)
    requires ContiguousFrom(groups, first) && groups != []
    ensures MinOrder(groups) == first
  {
    if |groups| > 1 {
      TailIsContiguous(groups, first);
      MinOfContiguous(groups[1..], first + 1);
    }
  }

  // ---- counting

  lemma {:induction false} RestCount(s: seq<Child>, done: set<string>)
    requires Unique(s) && done <= Ids(s)
    ensures |Without(s, done)| + |done| == |s|
  {
    WithoutKeeps(s, done);
    UniqueCount(s);
    UniqueCount(Without(s, done));
    assert Ids(Without(s, done)) == Ids(s) - done;
  }
}
