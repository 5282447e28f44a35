/** What every sequence of events from a loaded plan keeps. */
module ScopeRuns {
  import opened Prelude
  import opened Children
  import opened Scope
  import opened ScopeBarriers
  import PostMerge
  import PM = PostMergeRuns

  // ---- the invariant

  /** A pull-request child's state: reached by its post-merge machine, and bound to the child once started. */
  ghost predicate Tracked(id: string, s: PostState) {
    && PM.Reachable(s) && s.evidence.results == PostMerge.NOTHING.results
    && (!s.phase.NotStarted? ==> s.evidence.merge.childId == Some(id))
  }

  /** The post-merge books of one child. */
  ghost predicate Booked(c: Child, done: bool, s: PostState) {
    if c.kind.Worker? then s.phase.NotRequired? && (done ==> PostMerge.Has(s.evidence.results.worker))
    else if !done then Tracked(c.id, s) && !s.phase.Complete?
    else
      || (Tracked(c.id, s) && s.phase.Complete?)
      || (c.kind.Leaf? && s.phase.NotRequired? && PostMerge.Has(s.evidence.results.leaf))
  }

  ghost predicate AllBooked(p: Plan, done: set<string>, post: map<string, PostState>) {
    && post.Keys == Ids(All(p))
    && forall c :: c in All(p) ==> Booked(c, c.id in done, post[c.id])
  }

  /** The pending work is the plan seen through the completed children. */
  predicate Shape(p: Plan, r: Run) {
    var done := r.completed.Keys;
    && r.scope == p.scope
    && r.parallel == Without(p.parallel, done)
    && r.groups == Pending(p.ordered, done)
    && r.order == OrderOf(r.groups)
    && (r.parallel != [] || r.groups != [])
    && Barrier(p.ordered, done)
  }

  ghost predicate Inv(p: Plan, r: Run) {
    && Shape(p, r)
    && (forall id :: id in r.completed ==> r.completed[id] in All(p) && r.completed[id].id == id)
    && AllBooked(p, r.completed.Keys, r.post)
  }

  ghost predicate ValidPlan(p: Plan) {
    WellFormedPlan(p) && Sorted(p)
  }

  ghost predicate PhaseInv(p: Plan, phase: Phase) {
    match phase
    case Planning(q) => q == p
    case Running(r) => Inv(p, r)
    case AllMerged(scope, confirmed) => scope == p.scope && AllBooked(p, Ids(All(p)), confirmed)
    case Finalizing(_, scope) => scope == p.scope
    case Done(scope, proof) => scope == p.scope && HasProof(proof, ROOT_PROOF)
    case PRFiled(scope, proof) => scope == p.scope && HasProof(proof, HANDOFF_PROOF)
    case Failed(reason, path) => path == p.scope.path && !Empty(reason)
    case Parked(cause, diagnostic, path) => path == p.scope.path && !Empty(cause) && !Empty(diagnostic)
  }

  /** The children whose completion is on record. */
  function CompletedIn(phase: Phase): set<string> {
    match phase
    case Running(r) => r.completed.Keys
    case AllMerged(_, confirmed) => confirmed.Keys
    case _ => {}
  }

  /** The post-merge states of all children. */
  function BooksOf(phase: Phase): map<string, PostState> {
    match phase
    case Running(r) => r.post
    case AllMerged(_, confirmed) => confirmed
    case _ => map[]
  }

  // ---- the constructors never refuse

  lemma {:induction false} DefaultedIsIdle(records: seq<Child>, post: map<string, PostState>)
    requires Ids(records) <= post.Keys
    ensures Defaulted(records, post) == post
  {
    if records != [] {
      assert records[0].id in Ids(records);
      assert Ids(records[1..]) <= Ids(records);
      DefaultedIsIdle(records[1..], post);
    }
  }

  /** Pending work is the plan without the completed children, in plan order. */
  lemma PendingWork(p: Plan, r: Run)
    requires ValidPlan(p) && Shape(p, r)
    ensures r.parallel + Flatten(r.groups) == Without(All(p), r.completed.Keys)
    ensures Unique(r.parallel + Flatten(r.groups))
    ensures Ids(r.parallel + Flatten(r.groups)) == Ids(All(p)) - r.completed.Keys
  {
    var done := r.completed.Keys;
    PendingIsRest(p.ordered, done);
    WithoutConcat(p.parallel, Flatten(p.ordered), done);
    WithoutKeeps(All(p), done);
  }

  /** Normalizing a reachable run and defaulting its post-merge states changes nothing. */
  lemma DefaultsAreIdle(p: Plan, r: Run)
    requires ValidPlan(p) && Shape(p, r) && r.post.Keys == Ids(All(p))
    ensures WithDefaults(r) == r
  {
    var done := r.completed.Keys;
    PendingWork(p, r);
    WithoutKeeps(p.parallel, done);
    SortKeepsOrdered(r.parallel);
    PendingIsSorted(p.ordered, done);
    DefaultedIsIdle(r.parallel + Flatten(r.groups), r.post);
  }

  lemma BooksMatch(p: Plan, r: Run, pending: seq<Child>)
    requires ValidPlan(p) && Inv(p, r)
    requires Ids(pending) == Ids(All(p)) - r.completed.Keys
    ensures forall k, c :: k in r.completed && c in pending ==> r.completed[k].id != c.id
    ensures r.post.Keys == Ids(pending) + (set k | k in r.completed :: r.completed[k].id)
  {
    CompletedAreDeclared(p, r);
    assert (set k | k in r.completed :: r.completed[k].id) == r.completed.Keys;
    forall k, c | k in r.completed && c in pending ensures r.completed[k].id != c.id {
      assert c.id in Ids(pending);
    }
  }

  lemma ConstructorAccepts(p: Plan, r: Run)
    requires ValidPlan(p) && Inv(p, r)
    ensures MakeRunning(r) == Ok(Running(r))
  {
    var pending := r.parallel + Flatten(r.groups);
    DefaultsAreIdle(p, r);
    PendingWork(p, r);
    BooksMatch(p, r, pending);
    CompletionsProven(p, r);
    PendingIsContiguous(p.ordered, r.completed.Keys, 1);
    assert ContiguousFrom(r.groups, if r.order == 0 then 1 else r.order);
    assert WellFormedRun(r);
  }

  lemma CompletedAreDeclared(p: Plan, r: Run)
    requires Inv(p, r)
    ensures r.completed.Keys <= Ids(All(p))
  {
    forall id | id in r.completed ensures id in Ids(All(p)) {
      assert r.completed[id] in All(p);
    }
  }

  lemma CompletionsProven(p: Plan, r: Run)
    requires Inv(p, r)
    ensures forall k :: k in r.completed ==> k in r.post && CompletionProven(r.completed[k], r.post[k])
  {
    forall k | k in r.completed ensures k in r.post && CompletionProven(r.completed[k], r.post[k]) {
      var c := r.completed[k];
      assert c in All(p) && c.id in Ids(All(p));
      assert Booked(c, true, r.post[k]);
    }
  }

  lemma AllMergedAccepts(p: Plan, confirmed: map<string, PostState>)
    requires ValidPlan(p) && AllBooked(p, Ids(All(p)), confirmed)
    ensures MakeAllMerged(p.scope, confirmed) == Ok(AllMerged(p.scope, confirmed))
  {
    forall k | k in confirmed ensures Confirmed(confirmed[k]) {
      var c :| c in All(p) && c.id == k;
      assert Booked(c, true, confirmed[k]);
    }
  }

  // ---- completing one child

  /** An active child is declared, not done, and either parallel work or in the current stage, never both. */
  lemma ActiveIsPending(p: Plan, r: Run, id: string)
    requires ValidPlan(p) && Shape(p, r) && ActiveRecord(r, id).Some?
    ensures var c := ActiveRecord(r, id).value;
            && c in All(p) && c.id == id && id !in r.completed
            && (if exists d :: d in r.parallel && d.id == id
                then c in r.parallel && forall d :: d in Flatten(p.ordered) ==> d.id != id
                else r.groups != [] && c in r.groups[0].records)
  {
    var c := ActiveRecord(r, id).value;
    var done := r.completed.Keys;
    PendingWork(p, r);
    UniqueSplit(p.parallel, Flatten(p.ordered));
    UniqueSplit(r.parallel, Flatten(r.groups));
    if r.groups != [] { FlattenMembers(r.groups, r.groups[0]); }
    assert c in r.parallel + Flatten(r.groups);
    if d :| d in r.parallel && d.id == id { assert d in p.parallel; }
  }

  lemma SameRecord(s: seq<Child>, c: Child, d: Child)
    requires Unique(s) && c in s && d in s && c.id == d.id
    ensures c == d
  {
  }

  lemma BookingKeeps(p: Plan, r: Run, c: Child, state: PostState)
    requires ValidPlan(p) && Inv(p, r) && c in All(p) && Booked(c, true, state)
    ensures AllBooked(p, r.completed.Keys + {c.id}, r.post[c.id := state])
  {
    assert c.id in Ids(All(p));
    forall d | d in All(p)
      ensures Booked(d, d.id in r.completed.Keys + {c.id}, r.post[c.id := state][d.id])
    {
      if d.id == c.id { SameRecord(All(p), c, d); }
    }
  }

  /** The phase that has the stages and the parallel work of `next`, whichever constructor builds it. */
  function Settled(next: Run): Outcome {
    if next.parallel == [] && next.groups == [] then MakeAllMerged(next.scope, next.post)
    else MakeRunning(next.(order := OrderOf(next.groups)))
  }

  /** One more child is done, and the next phase still is the plan seen through the completed children. */
  ghost predicate Advanced(p: Plan, r: Run, id: string, o: Outcome) {
    o.Ok? && PhaseInv(p, o.value) && CompletedIn(o.value) == r.completed.Keys + {id}
    && (o.value.Running? || o.value.AllMerged?)
  }

  lemma EverythingDone(p: Plan, done: set<string>)
    requires done <= Ids(All(p)) && Barrier(p.ordered, done)
    requires Without(p.parallel, done) == [] && Pending(p.ordered, done) == []
    ensures done == Ids(All(p))
  {
    PendingIsRest(p.ordered, done);
    forall d | d in All(p) ensures d.id in done {
      if d in p.parallel { assert d !in Without(p.parallel, done); }
      else { assert d !in Without(Flatten(p.ordered), done); }
    }
  }

  lemma CompletedStayDeclared(p: Plan, r: Run, c: Child, completed: map<string, Child>)
    requires Inv(p, r) && c in All(p) && completed == r.completed[c.id := c]
    ensures completed.Keys <= Ids(All(p))
    ensures forall id :: id in completed ==> completed[id] in All(p) && completed[id].id == id
  {
    CompletedAreDeclared(p, r);
    assert c.id in Ids(All(p));
  }

  /** `next` is the plan seen through its completed children, but for the order. */
  ghost predicate Projects(p: Plan, next: Run) {
    var done := next.completed.Keys;
    && next.scope == p.scope && done <= Ids(All(p))
    && next.parallel == Without(p.parallel, done)
    && next.groups == Pending(p.ordered, done)
    && Barrier(p.ordered, done)
    && (forall id :: id in next.completed ==> next.completed[id] in All(p) && next.completed[id].id == id)
    && AllBooked(p, done, next.post)
  }

  lemma SettledMerges(p: Plan, next: Run)
    requires ValidPlan(p) && Projects(p, next) && next.parallel == [] && next.groups == []
    ensures Settled(next) == Ok(AllMerged(p.scope, next.post))
    ensures PhaseInv(p, AllMerged(p.scope, next.post)) && next.post.Keys == next.completed.Keys
  {
    EverythingDone(p, next.completed.Keys);
    AllMergedAccepts(p, next.post);
  }

  lemma SettledRuns(p: Plan, next: Run)
    requires ValidPlan(p) && Projects(p, next) && !(next.parallel == [] && next.groups == [])
    ensures var settled := next.(order := OrderOf(next.groups));
            Settled(next) == Ok(Running(settled)) && PhaseInv(p, Running(settled))
  {
    var settled := next.(order := OrderOf(next.groups));
    assert Shape(p, settled);
    ConstructorAccepts(p, settled);
  }

  lemma SettledKeeps(p: Plan, r: Run, c: Child, next: Run)
    requires ValidPlan(p) && Projects(p, next)
    requires next.completed.Keys == r.completed.Keys + {c.id}
    ensures Advanced(p, r, c.id, Settled(next))
    ensures BooksOf(Settled(next).value) == next.post
  {
    hide ValidPlan, Projects, Settled, Inv, AllBooked;
    if next.parallel == [] && next.groups == [] {
      SettledMerges(p, next);
    } else {
      SettledRuns(p, next);
    }
  }

  /** `next` still holds the pending work of `r`. */
  predicate SamePending(r: Run, next: Run) {
    next.scope == r.scope && next.order == r.order && next.groups == r.groups && next.parallel == r.parallel
  }

  /** The run whose pending work is the plan without `done`. */
  function Projected(p: Plan, next: Run, done: set<string>): Run {
    next.(groups := Pending(p.ordered, done), parallel := Without(p.parallel, done))
  }

  /** What the code does when a parallel child is done is what the plan says. */
  lemma ParallelRemoval(p: Plan, r: Run, c: Child, next: Run, done: set<string>)
    requires ValidPlan(p) && Shape(p, r) && ActiveRecord(r, c.id) == Some(c)
    requires exists d :: d in r.parallel && d.id == c.id
    requires SamePending(r, next) && done == r.completed.Keys + {c.id}
    ensures Barrier(p.ordered, done)
    ensures RemoveActive(r, c, next) == Settled(Projected(p, next, done))
  {
    ActiveIsPending(p, r, c.id);
    PendingIgnores(p.ordered, r.completed.Keys, c.id);
    WithoutTwice(p.parallel, r.completed.Keys, {c.id});
    PendingIsContiguous(p.ordered, r.completed.Keys, 1);
  }

  /** The dictionary without its emptied first stage, or with that stage filtered. */
  lemma DictionaryRemoval(g: seq<Group>, id: string)
    requires g != [] && ContiguousFrom(g, g[0].order)
    requires forall c :: c in Flatten(g[1..]) ==> c.id != id
    ensures var rest := Without(g[0].records, {id});
            var pending := RemoveFrom(g, id);
            && pending == [Group(g[0].order, rest)] + g[1..]
            && GroupAt(pending, g[0].order) == rest
            && (rest == [] ==> DropOrder(pending, g[0].order) == g[1..])
            && (g[1..] != [] ==> MinOrder(g[1..]) == g[1].order)
  {
    RemoveFromAbsent(g[1..], id);
    TailIsContiguous(g, g[0].order);
    DropAbsent(g[1..], g[0].order + 1, g[0].order);
    if g[1..] != [] { MinOfContiguous(g[1..], g[0].order + 1); }
    var pending := RemoveFrom(g, id);
    assert pending[1..] == g[1..];
  }

  lemma StageAdvances(p: Plan, r: Run, c: Child, done: set<string>)
    requires ValidPlan(p) && Shape(p, r) && ActiveRecord(r, c.id) == Some(c)
    requires !exists d :: d in r.parallel && d.id == c.id
    requires done == r.completed.Keys + {c.id}
    ensures r.groups != [] && r.order == r.groups[0].order && ContiguousFrom(r.groups, r.order)
    ensures forall d :: d in Flatten(r.groups[1..]) ==> d.id != c.id
    ensures Barrier(p.ordered, done) && Without(p.parallel, done) == r.parallel
    ensures var rest := Without(r.groups[0].records, {c.id});
            Pending(p.ordered, done) == (if rest == [] then [] else [Group(r.order, rest)]) + r.groups[1..]
  {
    ActiveIsPending(p, r, c.id);
    WithoutTwice(p.parallel, r.completed.Keys, {c.id});
    WithoutAbsent(r.parallel, {c.id});
    UniqueSplit(p.parallel, Flatten(p.ordered));
    PendingAdvances(p.ordered, r.completed.Keys, c.id, 1);
    PendingIsContiguous(p.ordered, r.completed.Keys, 1);
  }

  /** And likewise for a child of the current stage. */
  lemma StageRemoval(p: Plan, r: Run, c: Child, next: Run, done: set<string>)
    requires ValidPlan(p) && Shape(p, r) && ActiveRecord(r, c.id) == Some(c)
    requires !exists d :: d in r.parallel && d.id == c.id
    requires SamePending(r, next) && done == r.completed.Keys + {c.id}
    ensures Barrier(p.ordered, done)
    ensures RemoveActive(r, c, next) == Settled(Projected(p, next, done))
  {
    hide MakeRunning, MakeAllMerged, Shape, WellFormedPlan, Sorted, Barrier, Flatten, ContiguousFrom;
    var g := r.groups;
    StageAdvances(p, r, c, done);
    DictionaryRemoval(g, c.id);
    if Without(g[0].records, {c.id}) == [] {
      assert Pending(p.ordered, done) == g[1..];
    } else {
      assert Pending(p.ordered, done) == RemoveFrom(g, c.id);
    }
  }

  lemma Removal(p: Plan, r: Run, c: Child, next: Run, done: set<string>)
    requires ValidPlan(p) && Shape(p, r) && ActiveRecord(r, c.id) == Some(c)
    requires SamePending(r, next) && done == r.completed.Keys + {c.id}
    ensures c in All(p) && Barrier(p.ordered, done)
    ensures RemoveActive(r, c, next) == Settled(Projected(p, next, done))
  {
    ActiveIsPending(p, r, c.id);
    if exists d :: d in r.parallel && d.id == c.id {
      ParallelRemoval(p, r, c, next, done);
    } else {
      StageRemoval(p, r, c, next, done);
    }
  }

  lemma KeysAfter<T>(m: map<string, T>, k: string, v: T)
    ensures m[k := v].Keys == m.Keys + {k}
  {
  }

  lemma ScopeOfRun(p: Plan, r: Run)
    requires Inv(p, r)
    ensures r.scope == p.scope
  {
  }

  lemma ProjectedProjects(p: Plan, next: Run, done: set<string>)
    requires done == next.completed.Keys && next.scope == p.scope && done <= Ids(All(p)) && Barrier(p.ordered, done)
    requires forall id :: id in next.completed ==> next.completed[id] in All(p) && next.completed[id].id == id
    requires AllBooked(p, done, next.post)
    ensures Projects(p, Projected(p, next, done))
  {
    hide AllBooked, Barrier, Ids, All, Without, Pending;
  }

  /** The books after a completion, with the pending work the plan leaves. */
  lemma BookedProjects(p: Plan, r: Run, c: Child, state: PostState, next: Run)
    requires ValidPlan(p) && Inv(p, r) && c in All(p) && Booked(c, true, state)
    requires next.completed == r.completed[c.id := c] && next.post == r.post[c.id := state]
    requires next.scope == r.scope && Barrier(p.ordered, next.completed.Keys)
    ensures Projects(p, Projected(p, next, next.completed.Keys))
  {
    hide *;
    ScopeOfRun(p, r);
    KeysAfter(r.completed, c.id, c);
    BookingKeeps(p, r, c, state);
    CompletedStayDeclared(p, r, c, next.completed);
    ProjectedProjects(p, next, next.completed.Keys);
  }

  lemma RemoveActiveKeeps(p: Plan, r: Run, c: Child, state: PostState, results: map<ResultKey, string>)
    requires ValidPlan(p) && Inv(p, r) && ActiveRecord(r, c.id) == Some(c) && Booked(c, true, state)
    ensures var o := RemoveActive(r, c, Book(r, c, state).(results := results));
            Advanced(p, r, c.id, o) && BooksOf(o.value) == r.post[c.id := state]
  {
    var next := Book(r, c, state).(results := results);
    var done := next.completed.Keys;
    Removal(p, r, c, next, done);
    hide ValidPlan, Inv, Booked, Barrier, Projects, RemoveActive, Settled, Advanced, ActiveRecord, BooksOf;
    BookedProjects(p, r, c, state, next);
    SettledKeeps(p, r, c, Projected(p, next, done));
  }

  // ---- one event

  lemma CompleteWorkerKeeps(p: Plan, r: Run, id: string, digest: string)
    requires ValidPlan(p) && Inv(p, r)
    ensures var o := CompleteWorker(r, id, digest);
            || o == Err(Illegal)
            || (Advanced(p, r, id, o) && id in r.post
                && BooksOf(o.value) == r.post[id := WorkerDone(r.post[id], digest)])
  {
    if CompleteWorker(r, id, digest) != Err(Illegal) {
      var c := ActiveRecord(r, id).value;
      RemoveActiveKeeps(p, r, c, WorkerDone(r.post[id], digest), r.results[WorkerResult(id) := digest]);
    }
  }

  lemma CompleteLeafKeeps(p: Plan, r: Run, id: string, digest: string)
    requires ValidPlan(p) && Inv(p, r)
    ensures var o := CompleteLeaf(r, id, digest);
            || o == Err(Illegal)
            || (Advanced(p, r, id, o) && id in r.post
                && BooksOf(o.value) == r.post[id := LeafDone(r.post[id], digest)])
  {
    if CompleteLeaf(r, id, digest) != Err(Illegal) {
      var c := ActiveRecord(r, id).value;
      RemoveActiveKeeps(p, r, c, LeafDone(r.post[id], digest), r.results[LeafResult(id) := digest]);
    }
  }

  /** The first accepted event adopts the merge and binds the child. */
  lemma FirstStepBinds(s: PostState, e: PostMerge.Event)
    requires PM.Reachable(s) && s.phase.NotStarted? && PostMerge.Advance(s, e).Ok?
    ensures PostMerge.Advance(s, e).value.evidence.merge.childId == Some(e.child)
  {
  }

  lemma TrackedStep(id: string, s: PostState, e: PostMerge.Event)
    requires Tracked(id, s) && !s.phase.Complete? && e.child == id
    ensures var o := PostMerge.Advance(s, e); o.Ok? ==> Tracked(id, o.value) && !o.value.phase.NotRequired?
  {
    PM.StepKeeps(s, e);
    if PostMerge.Advance(s, e).Ok? && s.phase.NotStarted? { FirstStepBinds(s, e); }
  }

  /** The same children are done, and the invariant holds. */
  ghost predicate Held(p: Plan, r: Run, o: Outcome) {
    o.Ok? && o.value.Running? && PhaseInv(p, o.value) && CompletedIn(o.value) == r.completed.Keys
  }

  lemma BooksUpdated(p: Plan, r: Run, c: Child, state: PostState)
    requires ValidPlan(p) && Inv(p, r) && c in All(p) && c.id !in r.completed && Booked(c, false, state)
    ensures AllBooked(p, r.completed.Keys, r.post[c.id := state])
  {
    assert c.id in Ids(All(p));
    forall d | d in All(p) ensures Booked(d, d.id in r.completed, r.post[c.id := state][d.id]) {
      if d.id == c.id { SameRecord(All(p), c, d); }
    }
  }

  lemma PostStateKept(p: Plan, r: Run, c: Child, state: PostState, next: Run)
    requires ValidPlan(p) && Inv(p, r) && c in All(p) && c.id !in r.completed && Booked(c, false, state)
    requires next == r.(post := r.post[c.id := state])
    ensures Inv(p, next) && MakeRunning(next) == Ok(Running(next))
  {
    BooksUpdated(p, r, c, state);
    assert Shape(p, next);
    ConstructorAccepts(p, next);
  }

  /** The child's own machine either keeps it pending or completes it, with its books in order. */
  lemma ChildAdvances(p: Plan, r: Run, c: Child, e: PostMerge.Event)
    requires ValidPlan(p) && Inv(p, r) && e.child == c.id && ActiveRecord(r, c.id) == Some(c) && !c.kind.Worker?
    ensures c in All(p) && c.id !in r.completed && c.id in r.post && !r.post[c.id].phase.Complete?
    ensures var o := PostMerge.Advance(r.post[c.id], e); o.Ok? ==> Booked(c, o.value.phase.Complete?, o.value)
  {
    ActiveIsPending(p, r, c.id);
    assert c.id in Ids(All(p));
    assert Booked(c, false, r.post[c.id]);
    TrackedStep(c.id, r.post[c.id], e);
  }

  lemma PostMergeProgresses(p: Plan, r: Run, c: Child, e: PostMerge.Event, state: PostState, next: Run)
    requires ValidPlan(p) && Inv(p, r) && e.child == c.id && ActiveRecord(r, c.id) == Some(c) && !c.kind.Worker?
    requires c.id in r.post && PostMerge.Advance(r.post[c.id], e) == Ok(state) && !state.phase.Complete?
    requires next == r.(post := r.post[c.id := state])
    ensures Inv(p, next) && PostMergeTransition(r, e) == Ok(Running(next))
  {
    ChildAdvances(p, r, c, e);
    PostStateKept(p, r, c, state, next);
  }

  lemma PostMergeHolds(p: Plan, r: Run, c: Child, e: PostMerge.Event, state: PostState)
    requires ValidPlan(p) && Inv(p, r) && e.child == c.id && ActiveRecord(r, c.id) == Some(c) && !c.kind.Worker?
    requires c.id in r.post && PostMerge.Advance(r.post[c.id], e) == Ok(state) && !state.phase.Complete?
    ensures Held(p, r, PostMergeTransition(r, e))
  {
    PostMergeProgresses(p, r, c, e, state, r.(post := r.post[c.id := state]));
  }

  lemma PostMergeCompletes(p: Plan, r: Run, c: Child, e: PostMerge.Event, state: PostState)
    requires ValidPlan(p) && Inv(p, r) && e.child == c.id && ActiveRecord(r, c.id) == Some(c) && !c.kind.Worker?
    requires c.id in r.post && PostMerge.Advance(r.post[c.id], e) == Ok(state) && state.phase.Complete?
    ensures var o := PostMergeTransition(r, e);
            Advanced(p, r, c.id, o) && BooksOf(o.value) == r.post[c.id := state]
  {
    ChildAdvances(p, r, c, e);
    RemoveActiveKeeps(p, r, c, state, r.results);
    assert Book(r, c, state).(results := r.results) == Book(r, c, state);
  }

  lemma PostMergeAccepted(p: Plan, r: Run, c: Child, e: PostMerge.Event, state: PostState)
    requires ValidPlan(p) && Inv(p, r) && e.child == c.id && ActiveRecord(r, c.id) == Some(c) && !c.kind.Worker?
    requires c.id in r.post && PostMerge.Advance(r.post[c.id], e) == Ok(state)
    ensures Held(p, r, PostMergeTransition(r, e)) || Advanced(p, r, c.id, PostMergeTransition(r, e))
  {
    if state.phase.Complete? { PostMergeCompletes(p, r, c, e, state); } else { PostMergeHolds(p, r, c, e, state); }
  }

  lemma PostMergeKeeps(p: Plan, r: Run, e: PostMerge.Event)
    requires ValidPlan(p) && Inv(p, r)
    ensures var o := PostMergeTransition(r, e);
            o == Err(Illegal) || Held(p, r, o) || (ActiveRecord(r, e.child).Some? && Advanced(p, r, e.child, o))
  {
    hide MakeRunning, RemoveActive, PostMerge.Advance, Inv;
    var found := ActiveRecord(r, e.child);
    if found.Some? && !found.value.kind.Worker? && e.child in r.post && PostMerge.Advance(r.post[e.child], e).Ok? {
      PostMergeAccepted(p, r, found.value, e, PostMerge.Advance(r.post[e.child], e).value);
    }
  }

  /** The child an event names, if any. */
  function Subject(e: Event): string {
    match e
    case Observed(id) => id
    case ChildTerminal(id, _, _) => id
    case PostMergeStep(step) => step.child
    case WorkerCompleted(id, _) => id
    case LeafCompleted(id, _) => id
    case _ => ""
  }

  lemma RunningKeeps(p: Plan, r: Run, e: Event)
    requires ValidPlan(p) && Inv(p, r)
    ensures var o := RunningTransition(r, e);
            o == Err(Illegal) || Held(p, r, o) || (ActiveRecord(r, Subject(e)).Some? && Advanced(p, r, Subject(e), o))
  {
    hide RemoveActive, Book, MakeRunning, Inv, WellFormedPlan, Sorted, PostMergeTransition;
    match e
    case ChildTerminal(id, _, digest) =>
      if digest.Some? { CompleteWorkerKeeps(p, r, id, digest.value); }
    case PostMergeStep(step) => PostMergeKeeps(p, r, step);
    case WorkerCompleted(id, result) => CompleteWorkerKeeps(p, r, id, result);
    case LeafCompleted(id, result) => CompleteLeafKeeps(p, r, id, result);
    case _ =>
  }

  lemma {:induction false} DefaultedAt(records: seq<Child>, post: map<string, PostState>, c: Child)
    requires Unique(records) && c in records && c.id !in post
    ensures Defaulted(records, post)[c.id] == DefaultPost(c)
    decreases records
  {
    assert records[1..] == records[1..];
    assert Unique(records[1..]) by {
      assert records == [records[0]] + records[1..];
      UniqueSplit([records[0]], records[1..]);
    }
    if c != records[0] {
      assert c in records[1..];
      assert c.id != records[0].id;
      DefaultedAt(records[1..],
                  if records[0].id in post then post else post[records[0].id := DefaultPost(records[0])], c);
    }
  }

  lemma DefaultsAreBooked(p: Plan)
    requires ValidPlan(p)
    ensures AllBooked(p, {}, Defaulted(All(p), map[]))
  {
    forall c | c in All(p) ensures Booked(c, false, Defaulted(All(p), map[])[c.id]) {
      DefaultedAt(All(p), map[], c);
    }
  }

  /** The first running value of a plan: nothing is done, and every record has its default books. */
  function Start(p: Plan): Run {
    Run(OrderOf(p.ordered), p.ordered, p.scope, p.parallel, map[], Defaulted(All(p), map[]),
        Bindings(All(p), false), map[], Bindings(All(p), true))
  }

  lemma StartHolds(p: Plan)
    requires ValidPlan(p) && (p.parallel != [] || p.ordered != [])
    ensures PhaseInv(p, Running(Start(p))) && CompletedIn(Running(Start(p))) == {}
  {
    PendingUntouched(p.ordered, {}, 1);
    WithoutAbsent(p.parallel, {});
    DefaultsAreBooked(p);
    assert Start(p).completed.Keys == {};
  }

  lemma StartIsBuilt(p: Plan)
    requires ValidPlan(p) && (p.parallel != [] || p.ordered != [])
    ensures RunningFromPlan(p, OrderOf(p.ordered)) == Ok(Running(Start(p)))
  {
    hide AllBooked, WellFormedRun;
    StartHolds(p);
    ConstructorAccepts(p, Start(p));
    DefaultsAreIdle(p, Start(p));
    SortKeepsOrdered(p.parallel);
    NormalizedIsIdle(p.ordered);
    assert WithDefaults(Start(p).(post := map[])) == Start(p);
  }

  /** Releasing the plan starts with nothing done; a plan without children is merged at once. */
  lemma ReleaseKeeps(p: Plan, order: int, ids: seq<string>)
    requires ValidPlan(p)
    ensures var o := ReleaseFirstStage(p, order, ids);
            o == Err(Illegal)
            || o == (if All(p) == [] then Ok(AllMerged(p.scope, map[])) else Ok(Running(Start(p))))
  {
    if p.parallel != [] || p.ordered != [] {
      StartIsBuilt(p);
      if p.ordered != [] { FlattenMembers(p.ordered, p.ordered[0]); }
      assert All(p) != [];
    }
  }

  lemma ReleasedPhaseHolds(p: Plan, order: int, ids: seq<string>)
    requires ValidPlan(p)
    ensures var o := ReleaseFirstStage(p, order, ids);
            o == Err(Illegal)
            || (o.Ok? && (o.value.Running? || o.value.AllMerged?) && PhaseInv(p, o.value) && CompletedIn(o.value) == {})
  {
    hide ReleaseFirstStage, Inv, WellFormedPlan, Sorted, Start;
    ReleaseKeeps(p, order, ids);
    if All(p) != [] { StartHolds(p); } else { assert AllBooked(p, Ids(All(p)), map[]); }
  }
}
