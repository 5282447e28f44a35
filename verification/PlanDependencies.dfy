/** Validation of the leaf dependency edges one plan scope declares. */
module PlanDependencies {
  import opened Prelude
  import opened Graphs

  /** One element of a declared `depends_on` array. */
  datatype Item = Name(text: string) | NotText

  /** A declared `depends_on` value. */
  datatype Declared = Items(items: seq<Item>) | NotArray

  datatype DependencyError =
    | NotAnArray(name: Id)
    | EmptyName(name: Id, index: nat)
    | Repeats(name: Id, target: Id)
    | DeclaresButNotLeaf(name: Id)
    | DependsOnItself(name: Id)
    | WrongKind(name: Id, target: Id)
    | UnknownSibling(name: Id, target: Id)
    | Cycle(trail: seq<Id>)

  predicate IsSpace(c: char) {
    c in {' ', '\t', '\n', '\r', '\U{000B}', '\U{000C}'}
  }

  predicate NonBlank(s: string) {
    exists i | 0 <= i < |s| :: !IsSpace(s[i])
  }

  /** The declared names, in declaration order. */
  function Names(items: seq<Item>): (r: seq<Id>)
    requires forall i :: 0 <= i < |items| ==> items[i].Name?
    ensures |r| == |items| && forall i :: 0 <= i < |items| ==> r[i] == items[i].text
  {
    seq(|items|, i requires 0 <= i < |items| => items[i].text)
  }

  ghost predicate Distinct(s: seq<Id>) {
    forall i, j :: 0 <= i < j < |s| ==> s[i] != s[j]
  }

  /** An array of distinct, non-blank names. */
  ghost predicate WellDeclared(d: Declared) {
    d.Items? && AllNames(d.items) && Distinct(Names(d.items))
  }

  ghost predicate AllNames(items: seq<Item>) {
    forall i :: 0 <= i < |items| ==> items[i].Name? && NonBlank(items[i].text)
  }

  lemma RepeatIsNotDistinct(items: seq<Item>, i: nat, j: nat)
    requires AllNames(items) && i < j < |items| && items[i] == items[j]
    ensures !Distinct(Names(items))
  {
    assert Names(items)[i] == Names(items)[j];
  }

  /** The first element that is wrong: everything before it is a list of distinct, non-blank names. */
  ghost predicate FirstFault(items: seq<Item>, index: nat) {
    index < |items| && WellDeclared(Items(items[..index])) && !WellDeclared(Items(items[..index + 1]))
  }

  /** What an error says of the declaration it refuses. */
  ghost predicate BlamesDeclaration(error: DependencyError, value: Declared, name: Id) {
    match error
    case NotAnArray(n) => n == name && value.NotArray?
    case EmptyName(n, index) =>
      && n == name && value.Items? && FirstFault(value.items, index)
      && (value.items[index].Name? ==> !NonBlank(value.items[index].text))
    case Repeats(n, target) =>
      && n == name && value.Items?
      && exists i, j :: 0 <= i < j < |value.items| && FirstFault(value.items, j)
                        && value.items[i] == Name(target) == value.items[j]
    case _ => false
  }

  method DeclaredTargets(value: Declared, name: Id) returns (r: Result<seq<Id>, DependencyError>)
    ensures r.Ok? <==> WellDeclared(value)
    ensures r.Ok? ==> r.value == Names(value.items)
    ensures r.Err? ==> BlamesDeclaration(r.error, value, name)
  {
    if value.NotArray? {
      return Err(NotAnArray(name));
    }
    var targets: seq<Id> := [];
    for index := 0 to |value.items|
      invariant WellDeclared(Items(value.items[..index]))
      invariant |targets| == index
      invariant forall i :: 0 <= i < index ==> value.items[i].Name? && NonBlank(value.items[i].text)
      invariant forall i :: 0 <= i < index ==> value.items[i] == Name(targets[i])
      invariant Distinct(targets)
    {
      var item := value.items[index];
      assert value.items[..index + 1] == value.items[..index] + [item];
      if item.NotText? || !NonBlank(item.text) {
        assert !AllNames(value.items[..index + 1]) by { assert value.items[..index + 1][index] == item; }
        return Err(EmptyName(name, index));
      }
      if item.text in targets {
        ghost var i :| 0 <= i < |targets| && targets[i] == item.text;
        assert value.items[i] == Name(item.text) == value.items[index];
        if AllNames(value.items) { RepeatIsNotDistinct(value.items, i, index); }
        RepeatIsNotDistinct(value.items[..index + 1], i, index);
        return Err(Repeats(name, item.text));
      }
      targets := targets + [item.text];
      assert Names(value.items[..index + 1]) == targets;
    }
    assert value.items[..|value.items|] == value.items;
    assert targets == Names(value.items);
    return Ok(targets);
  }

  /** Every target of `name` is another direct leaf. */
  ghost predicate SameScope(name: Id, targets: seq<Id>, leafNames: set<Id>) {
    name in leafNames && forall t :: t in targets ==> t != name && t in leafNames
  }

  /** What an error says of the scope: who declares what, and what its target is instead of another leaf. */
  ghost predicate BlamesScope(error: DependencyError, edges: Edges, leafNames: set<Id>, otherNames: set<Id>) {
    match error
    case DeclaresButNotLeaf(n) => n in edges && n !in leafNames
    case DependsOnItself(n) => n in edges && n in leafNames && n in edges[n]
    case WrongKind(n, t) =>
      n in edges && n in leafNames && t in edges[n] && t != n && t !in leafNames && t in otherNames
    case UnknownSibling(n, t) =>
      n in edges && n in leafNames && t in edges[n] && t != n && t !in leafNames && t !in otherNames
    case _ => false
  }

  method RequireSameScope(edges: Edges, order: seq<Id>, leafNames: set<Id>, otherNames: set<Id>)
    returns (r: Option<DependencyError>)
    requires Enumerates(order, edges.Keys)
    ensures r.None? <==> forall n :: n in edges ==> SameScope(n, edges[n], leafNames)
    ensures r.Some? ==> BlamesScope(r.value, edges, leafNames, otherNames)
  {
    for k := 0 to |order|
      invariant forall i :: 0 <= i < k ==> SameScope(order[i], edges[order[i]], leafNames)
    {
      var name := order[k];
      assert name in edges.Keys;
      if name !in leafNames {
        assert !SameScope(name, edges[name], leafNames);
        return Some(DeclaresButNotLeaf(name));
      }
      var targets := edges[name];
      for j := 0 to |targets|
        invariant forall i :: 0 <= i < j ==> targets[i] != name && targets[i] in leafNames
      {
        if targets[j] == name {
          assert !SameScope(name, targets, leafNames);
          return Some(DependsOnItself(name));
        }
        if targets[j] !in leafNames {
          assert !SameScope(name, targets, leafNames);
          return Some(if targets[j] in otherNames then WrongKind(name, targets[j])
                      else UnknownSibling(name, targets[j]));
        }
      }
    }
    assert forall n :: n in edges ==> n in order;
    return None;
  }

  /** The first position of a name on the trail. */
  function IndexOf(s: seq<Id>, x: Id): (k: nat)
    requires x in s
    ensures k < |s| && s[k] == x && x !in s[..k]
  {
    if s[0] == x then 0 else 1 + IndexOf(s[1..], x)
  }

  datatype Frame = Frame(node: Id, cursor: nat)

  datatype Visited = Settled(settled: set<Id>) | Closes(cycle: seq<Id>)

  /** What follows frame `i` on the trail. */
  function Next(trail: seq<Id>, i: nat): Option<Id> {
    if i + 1 < |trail| then Some(trail[i + 1]) else None
  }

  /** A target already taken is settled, and off the trail unless it is next on it. */
  ghost predicate Taken(targets: seq<Id>, cursor: nat, settled: set<Id>, trail: seq<Id>, next: Option<Id>) {
    && cursor <= |targets|
    && forall j :: 0 <= j < cursor ==>
         targets[j] in settled && (targets[j] in trail ==> next == Some(targets[j]))
  }

  ghost predicate FramesTaken(e: Edges, frames: seq<Frame>, settled: set<Id>, trail: seq<Id>) {
    && |frames| == |trail|
    && forall i :: 0 <= i < |frames| ==>
         && frames[i].node == trail[i]
         && Taken(Targets(e, frames[i].node), frames[i].cursor, settled, trail, Next(trail, i))
  }

  /** Everything the explicit stack of the search means. */
  ghost predicate StackInvariant(e: Edges, frames: seq<Frame>, trail: seq<Id>, settled: set<Id>) {
    && FramesTaken(e, frames, settled, trail)
    && (forall x :: x in trail ==> x in settled)
    && Distinct(trail)
    && (|trail| > 0 ==> Walk(e, trail))
  }

  /** What is settled and off the trail is finished for good. */
  ghost function Finished(trail: seq<Id>, settled: set<Id>): set<Id> {
    set x | x in settled && x !in trail
  }

  ghost function Universe(e: Edges): set<Id> {
    e.Keys + set n, t | n in e && t in e[n] :: t
  }

  lemma TargetsAreKnown(e: Edges, n: Id, target: Id)
    requires target in Targets(e, n)
    ensures target in Universe(e)
  {
  }

  /** Dropping the exhausted top frame finishes its node. */
  lemma PopFrame(e: Edges, frames: seq<Frame>, trail: seq<Id>, settled: set<Id>)
    requires StackInvariant(e, frames, trail, settled) && |frames| > 0
    requires frames[|frames| - 1].cursor >= |Targets(e, frames[|frames| - 1].node)|
    requires Closed(e, Finished(trail, settled)) && CycleFree(e, Finished(trail, settled))
    ensures StackInvariant(e, frames[..|frames| - 1], trail[..|trail| - 1], settled)
    ensures var done := Finished(trail[..|trail| - 1], settled);
            Closed(e, done) && CycleFree(e, done)
  {
    var k := |trail| - 1;
    var rest := trail[..k];
    var done := Finished(trail, settled);
    assert forall x :: x in trail <==> x in rest || x == trail[k];
    assert trail[k] !in rest;
    assert Next(trail, k) == None;
    FinishNode(e, done, trail[k]);
    assert Finished(rest, settled) == done + {trail[k]};
    forall i | 0 <= i < k
      ensures Taken(Targets(e, frames[i].node), frames[i].cursor, settled, rest, Next(rest, i))
    {
      assert Taken(Targets(e, frames[i].node), frames[i].cursor, settled, trail, Next(trail, i));
    }
    if k > 0 { WalkSlice(e, trail, 0, k); }
  }

  /** Moving the top cursor past a settled target that is off the trail. */
  lemma SkipTarget(e: Edges, frames: seq<Frame>, trail: seq<Id>, settled: set<Id>, top: Frame, target: Id)
    requires StackInvariant(e, frames, trail, settled) && |frames| > 0 && top == frames[|frames| - 1]
    requires top.cursor < |Targets(e, top.node)| && Targets(e, top.node)[top.cursor] == target
    requires target in settled && target !in trail
    ensures StackInvariant(e, frames[..|frames| - 1] + [Frame(top.node, top.cursor + 1)], trail, settled)
  {
    hide Walk;
    var frames2 := frames[..|frames| - 1] + [Frame(top.node, top.cursor + 1)];
    forall i | 0 <= i < |frames|
      ensures frames2[i].node == trail[i]
              && Taken(Targets(e, frames2[i].node), frames2[i].cursor, settled, trail, Next(trail, i))
    {
      assert Taken(Targets(e, frames[i].node), frames[i].cursor, settled, trail, Next(trail, i));
    }
  }

  /** Below the top, a push changes nothing a frame has taken. */
  lemma PushKeepsTaken(targets: seq<Id>, cursor: nat, settled: set<Id>, trail: seq<Id>, i: nat, target: Id)
    requires Taken(targets, cursor, settled, trail, Next(trail, i)) && i + 1 < |trail| && target !in settled
    ensures Taken(targets, cursor, settled + {target}, trail + [target], Next(trail + [target], i))
  {
    assert Next(trail + [target], i) == Next(trail, i);
  }

  /** At the top, the pushed target is taken, and is next on the trail. */
  lemma PushAdvancesTaken(targets: seq<Id>, cursor: nat, settled: set<Id>, trail: seq<Id>, target: Id)
    requires Taken(targets, cursor, settled, trail, None) && target !in settled
    requires cursor < |targets| && targets[cursor] == target
    ensures Taken(targets, cursor + 1, settled + {target}, trail + [target], Some(target))
  {
  }

  lemma WalkExtends(e: Edges, trail: seq<Id>, target: Id)
    requires Walk(e, trail) && |trail| > 0 && target in Targets(e, trail[|trail| - 1])
    ensures Walk(e, trail + [target])
  {
    var longer := trail + [target];
    forall i, j | 0 <= i < j < |longer| && j == i + 1 ensures longer[j] in Targets(e, longer[i]) {
      if j < |trail| { assert longer[j] == trail[j] && longer[i] == trail[i]; }
    }
  }

  /** Pushing an unsettled target leaves the finished set alone. */
  lemma PushFrame(e: Edges, frames: seq<Frame>, trail: seq<Id>, settled: set<Id>, top: Frame, target: Id)
    requires StackInvariant(e, frames, trail, settled) && |frames| > 0 && top == frames[|frames| - 1]
    requires top.cursor < |Targets(e, top.node)| && Targets(e, top.node)[top.cursor] == target
    requires target !in settled
    ensures StackInvariant(e, frames[..|frames| - 1] + [Frame(top.node, top.cursor + 1)] + [Frame(target, 0)],
                           trail + [target], settled + {target})
    ensures Finished(trail + [target], settled + {target}) == Finished(trail, settled)
  {
    hide Walk, Taken, Next;
    var k := |trail| - 1;
    var trail2, settled2 := trail + [target], settled + {target};
    var frames2 := frames[..k] + [Frame(top.node, top.cursor + 1)] + [Frame(target, 0)];
    assert forall x :: x in trail2 <==> x in trail || x == target;
    forall i | 0 <= i < |frames2|
      ensures frames2[i].node == trail2[i]
              && Taken(Targets(e, frames2[i].node), frames2[i].cursor, settled2, trail2, Next(trail2, i))
    {
      if i < k {
        PushKeepsTaken(Targets(e, frames[i].node), frames[i].cursor, settled, trail, i, target);
      } else if i == k {
        TopTaken(e, frames, trail, settled);
        PushAdvancesTaken(Targets(e, top.node), top.cursor, settled, trail, target);
        NextAtTop(trail, target);
      } else {
        NothingTaken(e, target, settled2, trail2);
      }
    }
    WalkExtends(e, trail, target);
  }

  lemma TopTaken(e: Edges, frames: seq<Frame>, trail: seq<Id>, settled: set<Id>)
    requires FramesTaken(e, frames, settled, trail) && |frames| > 0
    ensures var top := frames[|frames| - 1]; Taken(Targets(e, top.node), top.cursor, settled, trail, None)
  {
    hide Taken;
    assert Next(trail, |trail| - 1) == None;
  }

  lemma NextAtTop(trail: seq<Id>, target: Id)
    requires |trail| > 0
    ensures Next(trail + [target], |trail| - 1) == Some(target)
  {
  }

  /** A frame that has just been pushed has taken nothing. */
  lemma NothingTaken(e: Edges, node: Id, settled: set<Id>, trail: seq<Id>)
    ensures forall next :: Taken(Targets(e, node), 0, settled, trail, next)
  {
  }

  /** An edge from the end of the trail back onto it is a genuine cycle of declared edges. */
  lemma CloseTrail(e: Edges, trail: seq<Id>, k: nat, target: Id)
    requires Walk(e, trail) && k < |trail| && trail[k] == target
    requires target in Targets(e, trail[|trail| - 1])
    ensures IsCycle(e, trail[k..] + [target])
  {
    WalkSlice(e, trail, k, |trail|);
    var c := trail[k..] + [target];
    forall i, j | 0 <= i < j < |c| && j == i + 1 ensures c[j] in Targets(e, c[i]) {
      if j < |c| - 1 { assert c[j] == trail[k..][j] && c[i] == trail[k..][i]; }
    }
  }

  lemma FirstFrame(e: Edges, start: Id, settled: set<Id>)
    ensures StackInvariant(e, [Frame(start, 0)], [start], settled + {start})
    ensures start !in settled ==> Finished([start], settled + {start}) == settled
  {
  }

  /** What the stack invariant says of the top frame. */
  lemma TopFrame(e: Edges, frames: seq<Frame>, trail: seq<Id>, settled: set<Id>)
    requires StackInvariant(e, frames, trail, settled) && |frames| > 0
    ensures |frames| == |trail| && frames[|frames| - 1].node == trail[|trail| - 1] && Walk(e, trail)
    ensures forall x :: x in trail ==> x in settled
  {
  }

  /** How many targets the top frame still has to take. */
  ghost function LeftAtTop(e: Edges, frames: seq<Frame>): int {
    if |frames| > 0 then |Targets(e, frames[|frames| - 1].node)| - frames[|frames| - 1].cursor else 0
  }

  lemma SkipLeavesLess(e: Edges, frames: seq<Frame>)
    requires |frames| > 0 && frames[|frames| - 1].cursor < |Targets(e, frames[|frames| - 1].node)|
    ensures var top := frames[|frames| - 1];
            var moved := frames[..|frames| - 1] + [Frame(top.node, top.cursor + 1)];
            |moved| == |frames| && 0 <= LeftAtTop(e, moved) < LeftAtTop(e, frames)
  {
  }

  lemma FinishedAtLast(trail: seq<Id>, settled: set<Id>)
    requires |trail| == 0
    ensures Finished(trail, settled) == settled
  {
  }

  lemma SettleOne(universe: set<Id>, settled: set<Id>, x: Id)
    requires settled <= universe && x in universe && x !in settled
    ensures settled + {x} <= universe && universe - (settled + {x}) < universe - settled
  {
    assert x in universe - settled;
  }

  method Visit(start: Id, edges: Edges, settled0: set<Id>) returns (r: Visited)
    requires start in edges && start !in settled0
    requires settled0 <= Universe(edges)
    requires Closed(edges, settled0) && CycleFree(edges, settled0)
    ensures r.Settled? ==>
              && settled0 + {start} <= r.settled <= Universe(edges)
              && Closed(edges, r.settled) && CycleFree(edges, r.settled)
    ensures r.Closes? ==> IsCycle(edges, r.cycle)
  {
    var frames := [Frame(start, 0)];
    var trail := [start];
    var settled := settled0 + {start};
    FirstFrame(edges, start, settled0);
    hide StackInvariant, Universe, Closed, CycleFree, Walk, Finished, Targets, LeftAtTop;
    while |frames| > 0
      invariant |frames| == |trail|
      invariant StackInvariant(edges, frames, trail, settled)
      invariant Closed(edges, Finished(trail, settled)) && CycleFree(edges, Finished(trail, settled))
      invariant settled0 + {start} <= settled <= Universe(edges)
      decreases Universe(edges) - settled, |frames|, LeftAtTop(edges, frames)
    {
      TopFrame(edges, frames, trail, settled);
      var top := frames[|frames| - 1];
      var targets := Targets(edges, top.node);
      if top.cursor >= |targets| {
        PopFrame(edges, frames, trail, settled);
        frames := frames[..|frames| - 1];
        trail := trail[..|trail| - 1];
        continue;
      }
      ghost var before := frames;
      frames := frames[..|frames| - 1] + [Frame(top.node, top.cursor + 1)];
      var target := targets[top.cursor];
      if target in trail {
        var k := IndexOf(trail, target);
        CloseTrail(edges, trail, k, target);
        return Closes(trail[k..] + [target]);
      }
      if target in settled {
        SkipTarget(edges, before, trail, settled, top, target);
        SkipLeavesLess(edges, before);
        continue;
      }
      PushFrame(edges, before, trail, settled, top, target);
      TargetsAreKnown(edges, top.node, target);
      SettleOne(Universe(edges), settled, target);
      settled := settled + {target};
      trail := trail + [target];
      frames := frames + [Frame(target, 0)];
    }
    FinishedAtLast(trail, settled);
    return Settled(settled);
  }

  method RequireAcyclic(edges: Edges, order: seq<Id>) returns (r: Option<seq<Id>>)
    requires Enumerates(order, edges.Keys)
    ensures r.None? <==> Acyclic(edges)
    ensures r.Some? ==> IsCycle(edges, r.value)
  {
    var settled: set<Id> := {};
    for k := 0 to |order|
      invariant settled <= Universe(edges)
      invariant Closed(edges, settled) && CycleFree(edges, settled)
      invariant forall i :: 0 <= i < k ==> order[i] in settled
    {
      if order[k] in settled {
        continue;
      }
      assert order[k] in edges.Keys;
      var v := Visit(order[k], edges, settled);
      if v.Closes? {
        return Some(v.cycle);
      }
      settled := v.settled;
    }
    assert forall n :: n in edges.Keys ==> n in order;
    CoveredIsAcyclic(edges, settled);
    return None;
  }

  /** The edges a fully declared scope normalizes to. */
  ghost function Normalized(edges: map<Id, Declared>): Edges
    requires forall n :: n in edges ==> WellDeclared(edges[n])
  {
    map n | n in edges :: (assert WellDeclared(edges[n]); Names(edges[n].items))
  }

  /** The declared targets of every declarer, or the first refusal. */
  method NormalizeAll(edges: map<Id, Declared>, order: seq<Id>) returns (r: Result<Edges, DependencyError>)
    requires Enumerates(order, edges.Keys)
    ensures r.Ok? <==> forall n :: n in edges ==> WellDeclared(edges[n])
    ensures r.Ok? ==> r.value == Normalized(edges)
    ensures r.Err? ==> exists n :: n in edges && BlamesDeclaration(r.error, edges[n], n)
  {
    hide BlamesDeclaration, Distinct, NonBlank;
    var normalized: Edges := map[];
    for k := 0 to |order|
      invariant normalized.Keys == set i | 0 <= i < k :: order[i]
      invariant forall i :: 0 <= i < k ==>
                  order[i] in edges && WellDeclared(edges[order[i]])
                  && normalized[order[i]] == Names(edges[order[i]].items)
    {
      assert order[k] in edges.Keys;
      var targets := DeclaredTargets(edges[order[k]], order[k]);
      if targets.Err? {
        assert BlamesDeclaration(targets.error, edges[order[k]], order[k]);
        return Err(targets.error);
      }
      normalized := normalized[order[k] := targets.value];
    }
    assert forall n :: n in edges ==> n in order;
    assert normalized == Normalized(edges);
    return Ok(normalized);
  }

  method ValidateLeafDependencies(
      edges: map<Id, Declared>, order: seq<Id>, leafNames: set<Id>, otherNames: set<Id>)
    returns (r: Result<Edges, DependencyError>)
    requires Enumerates(order, edges.Keys)
    ensures r.Ok? <==>
              && (forall n :: n in edges ==> WellDeclared(edges[n]))
              && (forall n :: n in edges ==> SameScope(n, Normalized(edges)[n], leafNames))
              && Acyclic(Normalized(edges))
    ensures r.Ok? ==> r.value == Normalized(edges)
    ensures r.Err? && (exists n :: n in edges && !WellDeclared(edges[n])) ==>
              exists n :: n in edges && BlamesDeclaration(r.error, edges[n], n)
    ensures r.Err? && (forall n :: n in edges ==> WellDeclared(edges[n])) ==>
              if exists n :: n in edges && !SameScope(n, Normalized(edges)[n], leafNames)
              then BlamesScope(r.error, Normalized(edges), leafNames, otherNames)
              else r.error.Cycle? && IsCycle(Normalized(edges), r.error.trail)
  {
    hide WellDeclared, BlamesDeclaration, BlamesScope, SameScope, Acyclic, IsCycle;
    var declared := NormalizeAll(edges, order);
    if declared.Err? {
      return Err(declared.error);
    }
    var normalized := declared.value;
    assert normalized.Keys == edges.Keys;
    var scope := RequireSameScope(normalized, order, leafNames, otherNames);
    if scope.Some? {
      return Err(scope.value);
    }
    var cycle := RequireAcyclic(normalized, order);
    if cycle.Some? {
      return Err(Cycle(cycle.value));
    }
    return Ok(normalized);
  }
}
